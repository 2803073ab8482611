/** The receive side of the driver as it runs: the descriptor ring lives in
    an array that the routines update in place, the buffers live in bus
    memory, and received frames are copied into one staging buffer before
    they are handed to the network stack. Each routine is proved against the
    value-level specification in RxSpec. */
module RxRing {
  import opened Descriptor
  import opened RxSpec

  /** Address of the k-th receive buffer of a pool starting at `start`:
      `start + k * RX_BUF_SIZE` in the 32-bit arithmetic of the target,
      counted out one buffer at a time. */
  function ChunkAddress(start: bv32, k: nat): bv32
  {
    if k == 0 then start else ChunkAddress(start, k - 1) + 0x600
  }

  /** Chunks of an aligned pool are aligned, so their addresses survive the
      address mask of word 0 intact. */
  lemma {:induction false} ChunkAligned(start: bv32, k: nat)
    requires start & 3 == 0
    ensures ChunkAddress(start, k) & 3 == 0
  {
    if k > 0 {
      ChunkAligned(start, k - 1);
      AlignedStep(ChunkAddress(start, k - 1));
    }
  }

  lemma AlignedStep(a: bv32)
    requires a & 3 == 0
    ensures (a + 0x600) & 3 == 0
  {
  }

  /** Number of whole receive buffers in a pool of `size` bytes. */
  function ChunkCount(size: bv32): nat
  {
    size as int / RX_BUF_SIZE
  }

  /** The pool holds that many buffers and not one more. */
  lemma ChunkCountBounds(size: bv32)
    ensures ChunkCount(size) * RX_BUF_SIZE <= size as int < (ChunkCount(size) + 1) * RX_BUF_SIZE
  {
  }

  /** Size of the receive pool one_time_init hands over. */
  const RX_POOL_SIZE: bv32 := 0x3000

  /** A slot as Xgmac_make_rxbuff_mem leaves it: its buffer address set and,
      for the last slot of a pool that fitted, the wrap bit. */
  function Armed(b: Bd, addr: bv32, wrap: bool): (r: Bd)
    ensures r.word1 == b.word1 && (wrap ==> IsWrap(r))
    ensures addr & 3 == 0 ==>
      BufferAddress(r) == addr && IsNew(r) == IsNew(b) && IsWrap(r) == (wrap || IsWrap(b))
  {
    var a := SetAddressRx(b, addr);
    if wrap then SetRxWrap(a) else a
  }

  /** The driver's receive state: the RxBdRing of the XEmacPss instance
      (an XEmacPss_BdRing) as the receive routines use it, the RXQBASE
      register, bus memory and the log of frames handed to NetReceive. */
  class RxBdRing {
    /** RxBD_start: the descriptor space. */
    var bds: array<Bd>
    /** Length, RxBD_current, RxBD_end and Rx_first_buf. */
    var length: int
    var current: int
    var bdEnd: int
    var firstBuf: int
    /** The descriptor space the RXQBASE register points hardware at. */
    var queueBase: array?<Bd>
    /** Bus memory, indexed by physical address. */
    const mem: array<bv8>
    /** The staging buffer frames are copied into (data_buffer). */
    const dataBuffer: array<bv8>
    /** Every frame passed to NetReceive, oldest first. */
    var delivered: seq<seq<bv8>>

    ghost predicate Memory()
      reads this
    {
      mem.Length <= 0x1_0000_0000 && dataBuffer.Length == RX_BUF_SIZE && mem != dataBuffer
    }

    /** The descriptor space is neither bus memory nor the staging buffer. */
    ghost predicate Shaped()
      reads this
    {
      && Memory() && bds as object != mem && bds as object != dataBuffer
      && 0 <= bdEnd <= length <= bds.Length && 0 <= current && 0 <= firstBuf
    }

    /** An initialised ring: both cursors inside it. */
    ghost predicate Valid()
      reads this
    {
      Shaped() && 0 < length && current < length && firstBuf < length
    }

    ghost function State(): RxState
      reads this, bds
      requires Valid()
    {
      RxState(bds[..], length, current, firstBuf)
    }

    constructor (memory: array<bv8>)
      requires memory.Length <= 0x1_0000_0000
      ensures Shaped() && mem == memory && fresh(bds) && fresh(dataBuffer)
      ensures length == 0 && current == 0 && bdEnd == 0 && firstBuf == 0
      ensures queueBase == null && delivered == []
    {
      bds := new Bd[0];
      length := 0;
      current := 0;
      bdEnd := 0;
      firstBuf := 0;
      queueBase := null;
      mem := memory;
      dataBuffer := new bv8[RX_BUF_SIZE];
      delivered := [];
    }

    /** Xgmac_init_rxq: refuse a ring of no slots or of more than RXBD_CNT
        slots; otherwise clear every slot to the released state, reset the
        cursors and point RXQBASE at the descriptor space. */
    method InitRxq(bdStart: array<Bd>, numElem: int) returns (status: int)
      requires Memory() && bdStart as object != mem && bdStart as object != dataBuffer
      requires 0 < numElem <= RXBD_CNT ==> numElem <= bdStart.Length
      modifies this, bdStart
      ensures Memory() && (status == 0 || status == -1)
      ensures status == -1 <==> numElem <= 0 || numElem > RXBD_CNT
      ensures status == -1 ==> unchanged(this) && unchanged(bdStart)
      ensures status == 0 ==>
        && Valid() && bds == bdStart && queueBase == bdStart
        && length == numElem && current == 0 && bdEnd == 0 && firstBuf == 0
        && delivered == old(delivered)
        && forall i :: 0 <= i < bdStart.Length ==>
             bdStart[i] == if i < numElem then ClearedBd else old(bdStart[i])
    {
      if numElem <= 0 || numElem > RXBD_CNT {
        return -1;
      }
      var slot := 0;
      while slot < numElem
        modifies bdStart
        invariant 0 <= slot <= numElem
        invariant forall i :: 0 <= i < bdStart.Length ==>
                    bdStart[i] == if i < slot then ClearedBd else old(bdStart[i])
      {
        bdStart[slot] := Bd(0x0000_0000, 0xF000_0000);
        slot := slot + 1;
      }
      bds := bdStart;
      length := numElem;
      current := 0;
      bdEnd := 0;
      firstBuf := 0;
      queueBase := bdStart;
      status := 0;
    }

    /** memset(start, 0, n) on bus memory. */
    method ZeroBytes(start: int, n: nat)
      requires 0 <= start && start + n <= mem.Length
      modifies mem
      ensures forall j :: 0 <= j < mem.Length ==> mem[j] == if start <= j < start + n then 0 else old(mem[j])
    {
      forall j | start <= j < start + n {
        mem[j] := 0;
      }
    }

    /** One step of Xgmac_make_rxbuff_mem: zero the i-th chunk of the pool and
        give it to the slot at RxBD_end. */
    method AssignChunk(start: bv32, i: nat)
      requires Shaped() && bdEnd < length
      requires start as int + (i + 1) * RX_BUF_SIZE <= mem.Length
      modifies this`bdEnd, bds, mem
      ensures Shaped() && bdEnd == old(bdEnd) + 1
      ensures bds[..] == old(bds[..])[old(bdEnd) := SetAddressRx(old(bds[bdEnd]), ChunkAddress(start, i))]
      ensures forall j :: 0 <= j < mem.Length ==>
        mem[j] == if start as int + i * RX_BUF_SIZE <= j < start as int + (i + 1) * RX_BUF_SIZE
                  then 0 else old(mem[j])
    {
      var chunk := start as int + i * RX_BUF_SIZE;
      assert chunk + RX_BUF_SIZE == start as int + (i + 1) * RX_BUF_SIZE;
      ZeroBytes(chunk, RX_BUF_SIZE);
      bds[bdEnd] := SetAddressRx(bds[bdEnd], ChunkAddress(start, i));
      bdEnd := bdEnd + 1;
    }

    /** Xgmac_make_rxbuff_mem: cut the pool into RX_BUF_SIZE chunks, zero
        each one and give it to the next unassigned slot. A NULL pool is
        refused, a pool smaller than one chunk assigns nothing, and chunks
        that find no free slot are ignored. The wrap bit goes on the last
        filled slot only when every chunk found a slot. Returns the number
        of slots filled. */
    method MakeRxbuffMem(rxBufStart: bv32, rxBuffSize: bv32) returns (filled: int)
      requires Shaped()
      requires rxBufStart != 0 ==> rxBufStart as int + rxBuffSize as int <= mem.Length
      modifies this`bdEnd, bds, mem
      ensures Shaped()
      ensures rxBufStart == 0 ==> filled == -1
      ensures rxBufStart != 0 ==>
        var room := old(length - bdEnd); var chunks := ChunkCount(rxBuffSize);
        filled == if chunks <= room then chunks else room
      ensures bdEnd == old(bdEnd) + (if filled < 0 then 0 else filled)
      ensures forall k :: 0 <= k < bds.Length ==>
        bds[k] == if old(bdEnd) <= k < bdEnd
                  then Armed(old(bds[k]), ChunkAddress(rxBufStart, k - old(bdEnd)),
                             k == bdEnd - 1 && ChunkCount(rxBuffSize) <= old(length - bdEnd))
                  else old(bds[k])
      ensures forall j :: 0 <= j < mem.Length ==>
        mem[j] == if rxBufStart as int <= j < rxBufStart as int + filled * RX_BUF_SIZE
                  then 0 else old(mem[j])
    {
      if rxBufStart == 0 {
        return -1;
      }
      var numBufs := ChunkCount(rxBuffSize);
      if numBufs == 0 {
        return 0;
      }
      filled := FillSlots(rxBufStart, rxBuffSize);
      if filled == numBufs {
        bds[bdEnd - 1] := SetRxWrap(bds[bdEnd - 1]);
      }
    }

    /** The loop of Xgmac_make_rxbuff_mem: hand out chunks until they run out
        or the ring is full, returning early in the second case. */
    method FillSlots(rxBufStart: bv32, rxBuffSize: bv32) returns (filled: int)
      requires Shaped() && rxBufStart as int + rxBuffSize as int <= mem.Length
      modifies this`bdEnd, bds, mem
      ensures Shaped()
      ensures var room := old(length - bdEnd); var chunks := ChunkCount(rxBuffSize);
        filled == if chunks <= room then chunks else room
      ensures bdEnd == old(bdEnd) + filled
      ensures forall k :: 0 <= k < bds.Length ==>
        bds[k] == if old(bdEnd) <= k < bdEnd
                  then SetAddressRx(old(bds[k]), ChunkAddress(rxBufStart, k - old(bdEnd)))
                  else old(bds[k])
      ensures forall j :: 0 <= j < mem.Length ==>
        mem[j] == if rxBufStart as int <= j < rxBufStart as int + filled * RX_BUF_SIZE
                  then 0 else old(mem[j])
    {
      var numBufs := ChunkCount(rxBuffSize);
      ChunkCountBounds(rxBuffSize);
      filled := 0;
      var i := 0;
      while i < numBufs
        invariant 0 <= i <= numBufs && filled == i
        invariant bdEnd == old(bdEnd) + i && bdEnd <= length
        invariant forall k :: 0 <= k < bds.Length ==>
          bds[k] == if old(bdEnd) <= k < bdEnd
                    then SetAddressRx(old(bds[k]), ChunkAddress(rxBufStart, k - old(bdEnd)))
                    else old(bds[k])
        invariant forall j :: 0 <= j < mem.Length ==>
          mem[j] == if rxBufStart as int <= j < rxBufStart as int + i * RX_BUF_SIZE
                    then 0 else old(mem[j])
      {
        if bdEnd < length {
          AssignChunk(rxBufStart, i);
          filled := filled + 1;
        } else {
          return filled;
        }
        i := i + 1;
      }
    }

    /** Clear a slot's NEW bit, then store the released status word. */
    method ReleaseSlot(i: int)
      requires 0 <= i < bds.Length
      modifies bds
      ensures bds[..] == old(bds[..])[i := Released(old(bds[i]))]
    {
      bds[i] := bds[i].(word0 := bds[i].word0 & !RXBUF_NEW_MASK);
      bds[i] := bds[i].(word1 := RX_STAT_RELEASED);
    }

    /** Xgmac_next_rx_buf, with the descriptor words written one at a time as
        the driver writes them. */
    method NextRxBuf() returns (status: int)
      requires Valid()
      modifies this`current, this`firstBuf, bds
      ensures Valid() && status == 0
      ensures State() == Advance(old(State()))
    {
      var cur := current;
      if IsSof(bds[cur]) {
        firstBuf := cur;
      } else {
        ReleaseSlot(cur);
      }
      if IsEof(bds[cur]) {
        ReleaseSlot(firstBuf);
      }
      current := current + 1;
      if current > length - 1 {
        current := 0;
      }
      status := 0;
    }

    /** memcpy(data_buffer, src, n) out of bus memory. */
    method CopyFrame(src: int, n: nat)
      requires Memory() && 0 <= src && src + n <= mem.Length && n <= dataBuffer.Length
      modifies dataBuffer
      ensures dataBuffer[..n] == mem[src..src + n] && dataBuffer[n..] == old(dataBuffer[n..])
    {
      forall k | 0 <= k < n {
        dataBuffer[k] := mem[src + k];
      }
    }

    /** The accepting tail of Xgmac_process_rx: copy the frame of the current
        slot into the staging buffer, advance the ring, and pass the copy to
        NetReceive. */
    method Deliver(hwbuf: int, frameLen: nat)
      requires Valid() && Deliverable(bds[current]) && Fits(bds[current], mem.Length)
      requires hwbuf == BufferAddress(bds[current]) as int && frameLen == FrameLength(bds[current])
      modifies this`current, this`firstBuf, this`delivered, bds, dataBuffer
      ensures Valid()
      ensures
        var f := FrameOf(old(bds[current]), mem[..]);
        && State() == Advance(old(State()))
        && delivered == old(delivered) + [f]
        && dataBuffer[..|f|] == f
        && dataBuffer[|f|..] == old(dataBuffer[|f|..])
    {
      ghost var bus := mem[..];
      ghost var f := FrameOf(bds[current], bus);
      assert f == bus[hwbuf..hwbuf + frameLen];
      CopyFrame(hwbuf, frameLen);
      assert dataBuffer[..frameLen] == f;
      ghost var copied := dataBuffer[..];
      var advanced := NextRxBuf();
      assert dataBuffer[..] == copied && mem[..] == bus;
      delivered := delivered + [dataBuffer[..frameLen]];
    }

    /** Xgmac_process_rx: refuse the current slot unless it is deliverable
        (the ring is then left exactly as it was); otherwise copy the frame
        into the staging buffer, advance the ring and hand the frame to
        NetReceive. */
    method ProcessRx() returns (status: int)
      requires Valid() && Fits(bds[current], mem.Length)
      modifies this`current, this`firstBuf, this`delivered, bds, dataBuffer
      ensures Valid()
      ensures status == 0 || status == -1
      ensures status == 0 <==> Deliverable(old(bds[current]))
      ensures status == -1 ==>
        State() == old(State()) && delivered == old(delivered) && dataBuffer[..] == old(dataBuffer[..])
      ensures status == 0 ==>
        var b := old(bds[current]); var f := FrameOf(b, mem[..]);
        && State() == Advance(old(State()))
        && delivered == old(delivered) + [f]
        && dataBuffer[..|f|] == f
        && dataBuffer[|f|..] == old(dataBuffer[|f|..])
    {
      var b := bds[current];
      if !IsNew(b) {
        return -1;
      }
      if !IsSof(b) {
        return -1;
      }
      if !IsEof(b) {
        return -1;
      }
      var frameLen := FrameLength(b);
      if frameLen == 0 {
        return -1;
      }
      var hwbuf := BufferAddress(b) as int;
      if hwbuf == 0 {
        return -1;
      }
      Deliver(hwbuf, frameLen);
      status := 0;
    }

    /** Xgmac_rx: when RXSR reports a received frame, process slots until one
        is refused; always acknowledge by writing the status back, and report
        success. */
    method Rx(rxStatus: bv32) returns (ret: int, ack: bv32)
      requires Valid() && AllFit(State(), mem.Length)
      modifies this`current, this`firstBuf, this`delivered, bds, dataBuffer
      ensures Valid() && ret == 1 && ack == rxStatus
      ensures rxStatus & RXSR_FRAMERX_MASK == 0 ==>
        State() == old(State()) && delivered == old(delivered) && dataBuffer[..] == old(dataBuffer[..])
      ensures rxStatus & RXSR_FRAMERX_MASK != 0 ==>
        var d := Drain(old(State()), mem[..]);
        State() == d.state && delivered == old(delivered) + d.frames
      ensures OneWrapAtEnd(old(bds[..]), length) ==> OneWrapAtEnd(bds[..], length)
    {
      if rxStatus & RXSR_FRAMERX_MASK != 0 {
        ghost var st0 := State();
        DrainRing();
        if OneWrapAtEnd(st0.descs, length) {
          DrainKeepsOneWrap(st0, mem[..]);
        }
      }
      ack := rxStatus;
      ret := 1;
    }

    /** The do-while of Xgmac_rx: run Xgmac_process_rx until it refuses a
        descriptor. */
    method DrainRing()
      requires Valid() && AllFit(State(), mem.Length)
      modifies this`current, this`firstBuf, this`delivered, bds, dataBuffer
      ensures Valid()
      ensures var d := Drain(old(State()), mem[..]);
        State() == d.state && delivered == old(delivered) + d.frames
    {
      ghost var bus := mem[..];
      ghost var goal := Drain(State(), bus);
      ghost var got: seq<seq<bv8>> := [];
      var retval := 0;
      while retval == 0
        invariant Valid() && AllFit(State(), |bus|) && mem[..] == bus
        invariant retval == 0 || retval == -1
        invariant delivered == old(delivered) + got
        invariant retval == -1 ==> goal == Drained(State(), got)
        invariant retval == 0 ==>
          goal.state == Drain(State(), bus).state && goal.frames == got + Drain(State(), bus).frames
        decreases CountNew(bds[..]), retval + 1
      {
        ghost var f;
        retval, f := DrainStep(bus);
        if retval == 0 {
          AppendAssoc(got, [f], Drain(State(), bus).frames);
          AppendAssoc(old(delivered), got, [f]);
          got := got + [f];
        }
      }
    }

    /** One turn of that do-while, seen from the drain it belongs to: a
        refusal ends the drain where it stands; a delivery is the drain's
        first frame, and the drain of the advanced ring gives the rest. */
    method DrainStep(ghost bus: seq<bv8>) returns (retval: int, ghost f: seq<bv8>)
      requires Valid() && AllFit(State(), |bus|) && mem[..] == bus
      modifies this`current, this`firstBuf, this`delivered, bds, dataBuffer
      ensures Valid() && AllFit(State(), |bus|)
      ensures retval == 0 || retval == -1
      ensures retval == -1 ==> Drain(old(State()), bus) == Drained(State(), []) && delivered == old(delivered)
      ensures retval == 0 ==>
        && CountNew(bds[..]) < CountNew(old(bds[..]))
        && Drain(old(State()), bus).state == Drain(State(), bus).state
        && Drain(old(State()), bus).frames == [f] + Drain(State(), bus).frames
        && delivered == old(delivered) + [f]
    {
      ghost var st := State();
      DrainUnfold(st, bus);
      retval := ProcessRx();
      f := if retval == 0 then FrameOf(st.descs[st.current], bus) else [];
    }

    /** The receive part of one_time_init: a ring of RXBD_CNT slots over
        `bdSpace`, fed from a pool of RXBD_CNT buffers at `rxBufStart`. */
    method SetupRx(bdSpace: array<Bd>, rxBufStart: bv32) returns (status: int)
      requires Memory() && bdSpace as object != mem && bdSpace as object != dataBuffer
      requires bdSpace.Length == RXBD_CNT
      requires rxBufStart != 0 ==> rxBufStart as int + RXBD_CNT * RX_BUF_SIZE <= mem.Length
      modifies this, bdSpace, mem
      ensures status == 0 <==> rxBufStart != 0
      ensures status == 0 ==>
        && Valid() && bds == bdSpace && queueBase == bdSpace
        && length == RXBD_CNT && bdEnd == RXBD_CNT && current == 0 && firstBuf == 0
      ensures status == 0 && rxBufStart & 3 == 0 ==>
        && CountNew(bds[..]) == 0
        && OneWrapAtEnd(bds[..], length)
        && forall k :: 0 <= k < RXBD_CNT ==> BufferAddress(bds[k]) == ChunkAddress(rxBufStart, k)
    {
      var r := InitRxq(bdSpace, RXBD_CNT);
      if r != 0 {
        return -1;
      }
      assert RX_POOL_SIZE as int == RXBD_CNT * RX_BUF_SIZE;
      var filled := MakeRxbuffMem(rxBufStart, RX_POOL_SIZE);
      if filled == 0 || filled == -1 {
        return -1;
      }
      if rxBufStart & 3 == 0 {
        forall k | 0 <= k < RXBD_CNT
          ensures BufferAddress(bds[k]) == ChunkAddress(rxBufStart, k)
          ensures IsWrap(bds[k]) == (k == RXBD_CNT - 1) && !IsNew(bds[k])
        {
          ChunkAligned(rxBufStart, k);
        }
        ReleasedSlots(bds[..]);
      }
      status := 0;
    }
  }

  lemma AppendAssoc<T>(a: seq<T>, b: seq<T>, c: seq<T>)
    ensures a + (b + c) == (a + b) + c
  {
  }

  /** Slots that were cleared and then given buffers are all owned by
      hardware. */
  lemma {:induction false} ReleasedSlots(s: seq<Bd>)
    requires forall i :: 0 <= i < |s| ==> !IsNew(s[i])
    ensures CountNew(s) == 0
  {
    if s != [] {
      ReleasedSlots(s[1..]);
    }
  }
}
