/** The receive ring as a value: the descriptor slots with the three cursors
    that Xgmac_next_rx_buf and Xgmac_process_rx move, and the functions that
    specify what those routines do to it. Descriptors are a frozen snapshot:
    hardware does not write them while a routine runs. */
module RxSpec {
  import opened Descriptor

  /** `descs` is the whole descriptor space, `length` the slots in the ring,
      `current` the slot software inspects next, `firstBuf` the slot holding
      the start of the frame being received. */
  datatype RxState = RxState(descs: seq<Bd>, length: nat, current: nat, firstBuf: nat)
  {
    predicate Valid()
    {
      0 < length <= |descs| && current < length && firstBuf < length
    }
  }

  /** The cursor step of Xgmac_next_rx_buf: increment, and reset to 0 once past
      the last slot. */
  function NextIndex(c: nat, len: nat): (r: nat)
    requires c < len
    ensures r == (c + 1) % len
  {
    if c + 1 > len - 1 then 0 else c + 1
  }

  /** Xgmac_next_rx_buf, step by step: the SOF test picks the frame's first
      slot or releases the current one; the EOF test then reads the current
      slot's status word as it is NOW, after that release. */
  function Advance(st: RxState): (r: RxState)
    requires st.Valid()
    ensures r.Valid() && |r.descs| == |st.descs| && r.length == st.length
    ensures r.current == (st.current + 1) % st.length
  {
    var cur := st.current;
    var sof := IsSof(st.descs[cur]);
    var first := if sof then cur else st.firstBuf;
    var d1 := if sof then st.descs else st.descs[cur := Released(st.descs[cur])];
    var d2 := if IsEof(d1[cur]) then d1[first := Released(d1[first])] else d1;
    RxState(d2, st.length, NextIndex(cur, st.length), first)
  }

  /** At most two slots change, the current one and the frame's first one, and
      each that changes is released to hardware. */
  lemma AdvanceWrites(st: RxState)
    requires st.Valid()
    ensures var r := Advance(st);
      forall i :: 0 <= i < |st.descs| ==>
        r.descs[i] == st.descs[i] ||
        ((i == st.current || i == r.firstBuf) && r.descs[i] == Released(st.descs[i]))
  {
  }

  /** The three cases of Xgmac_next_rx_buf. A slot without SOF is released on
      its own and the first-buffer cursor stays put; because its status word
      is overwritten before the EOF test, a trailing EOF slot of a
      multi-descriptor frame never releases that frame's first slot. An SOF
      slot becomes the first buffer and is released only when it is also EOF. */
  lemma AdvanceCases(st: RxState)
    requires st.Valid()
    ensures var b := st.descs[st.current]; var r := Advance(st);
      && (!IsSof(b) ==> r.descs == st.descs[st.current := Released(b)] && r.firstBuf == st.firstBuf)
      && (!IsSof(b) && st.firstBuf != st.current ==> r.descs[st.firstBuf] == st.descs[st.firstBuf])
      && (IsSof(b) && IsEof(b) ==> r.descs == st.descs[st.current := Released(b)] && r.firstBuf == st.current)
      && (IsSof(b) && !IsEof(b) ==> r.descs == st.descs && r.firstBuf == st.current)
  {
  }

  /** Recycling never moves a buffer or a wrap marker. */
  lemma AdvanceKeepsLayout(st: RxState)
    requires st.Valid()
    ensures var r := Advance(st);
      forall i :: 0 <= i < |st.descs| ==>
        IsWrap(r.descs[i]) == IsWrap(st.descs[i]) && BufferAddress(r.descs[i]) == BufferAddress(st.descs[i])
  {
  }

  /** Exactly one slot of the ring, the last, carries the wrap marker. */
  ghost predicate OneWrapAtEnd(s: seq<Bd>, len: nat)
    requires 0 < len <= |s|
  {
    IsWrap(s[len - 1]) && forall i :: 0 <= i < len - 1 ==> !IsWrap(s[i])
  }

  lemma AdvanceKeepsOneWrap(st: RxState)
    requires st.Valid() && OneWrapAtEnd(st.descs, st.length)
    ensures OneWrapAtEnd(Advance(st).descs, st.length)
  {
    AdvanceKeepsLayout(st);
  }

  /** `k` consecutive calls of Xgmac_next_rx_buf. */
  function AdvanceN(st: RxState, k: nat): (r: RxState)
    requires st.Valid()
    ensures r.Valid() && r.length == st.length && |r.descs| == |st.descs|
    decreases k
  {
    if k == 0 then st else AdvanceN(Advance(st), k - 1)
  }

  /** Up to a full turn, `k` calls move the cursor `k` slots forward,
      wrapping past the last slot at most once. */
  lemma {:induction false} AdvanceNCursor(st: RxState, k: nat)
    requires st.Valid() && k <= st.length
    ensures AdvanceN(st, k).current ==
              if st.current + k < st.length then st.current + k else st.current + k - st.length
    decreases k
  {
    if k > 0 {
      var next := Advance(st);
      AdvanceNCursor(next, k - 1);
      if st.current + 1 == st.length {
        assert next.current == 0;
      } else {
        assert next.current == st.current + 1;
      }
    }
  }

  /** `length` calls bring the cursor back to where it started. */
  lemma CursorReturns(st: RxState)
    requires st.Valid()
    ensures AdvanceN(st, st.length).current == st.current
  {
    AdvanceNCursor(st, st.length);
  }

  /** Number of slots whose NEW bit is set, i.e. that software still owns. */
  function CountNew(s: seq<Bd>): (n: nat)
    ensures n <= |s|
  {
    if s == [] then 0 else (if IsNew(s[0]) then 1 else 0) + CountNew(s[1..])
  }

  lemma {:induction false} CountNewRelease(s: seq<Bd>, i: nat)
    requires i < |s| && IsNew(s[i])
    ensures CountNew(s[i := Released(s[i])]) == CountNew(s) - 1
    decreases i
  {
    var t := s[i := Released(s[i])];
    if i == 0 {
      assert t[1..] == s[1..];
    } else {
      assert t[1..] == s[1..][i - 1 := Released(s[i])];
      CountNewRelease(s[1..], i - 1);
    }
  }

  /** Every deliverable slot of the ring fits memory and the staging buffer. */
  ghost predicate AllFit(st: RxState, memLen: nat)
    requires st.Valid()
  {
    forall i :: 0 <= i < st.length ==> Fits(st.descs[i], memLen)
  }

  /** Advancing past a deliverable slot (SOF and EOF both set) releases exactly
      that slot, so software owns one slot fewer. */
  lemma AdvanceDeliverable(st: RxState, memLen: nat)
    requires st.Valid() && Deliverable(st.descs[st.current])
    ensures Advance(st).descs == st.descs[st.current := Released(st.descs[st.current])]
    ensures Advance(st).firstBuf == st.current
    ensures CountNew(Advance(st).descs) == CountNew(st.descs) - 1
    ensures AllFit(st, memLen) ==> AllFit(Advance(st), memLen)
  {
    var b := st.descs[st.current];
    CountNewRelease(st.descs, st.current);
    ReleasedNotDeliverable(b);
  }

  /** The bytes Xgmac_process_rx copies out of a deliverable slot's buffer. */
  function FrameOf(b: Bd, mem: seq<bv8>): (f: seq<bv8>)
    requires Deliverable(b) && Fits(b, |mem|)
    ensures |f| == FrameLength(b) && 0 < |f| <= RX_BUF_SIZE
  {
    mem[BufferAddress(b) as nat .. BufferAddress(b) as nat + FrameLength(b)]
  }

  datatype Drained = Drained(state: RxState, frames: seq<seq<bv8>>)

  /** The do-while of Xgmac_rx: process slots until one is refused. */
  function Drain(st: RxState, mem: seq<bv8>): (r: Drained)
    requires st.Valid() && AllFit(st, |mem|)
    ensures r.state.Valid() && r.state.length == st.length && |r.state.descs| == |st.descs|
    ensures AllFit(r.state, |mem|)
    ensures !Deliverable(r.state.descs[r.state.current])
    ensures CountNew(r.state.descs) + |r.frames| == CountNew(st.descs)
    ensures forall f <- r.frames :: 0 < |f| <= RX_BUF_SIZE
    decreases CountNew(st.descs)
  {
    var b := st.descs[st.current];
    if !Deliverable(b) then Drained(st, [])
    else
      AdvanceDeliverable(st, |mem|);
      var rest := Drain(Advance(st), mem);
      Drained(rest.state, [FrameOf(b, mem)] + rest.frames)
  }

  /** One turn of the do-while of Xgmac_rx, seen from the drained result. */
  lemma DrainUnfold(st: RxState, mem: seq<bv8>)
    requires st.Valid() && AllFit(st, |mem|)
    ensures var b := st.descs[st.current];
      && (!Deliverable(b) ==> Drain(st, mem) == Drained(st, []))
      && (Deliverable(b) ==>
            && AllFit(Advance(st), |mem|)
            && CountNew(Advance(st).descs) < CountNew(st.descs)
            && Drain(st, mem).state == Drain(Advance(st), mem).state
            && Drain(st, mem).frames == [FrameOf(b, mem)] + Drain(Advance(st), mem).frames)
  {
    if Deliverable(st.descs[st.current]) {
      AdvanceDeliverable(st, |mem|);
    }
  }

  /** Two rings agree slot by slot on wrap markers and buffer addresses. */
  ghost predicate SameLayout(a: seq<Bd>, b: seq<Bd>)
  {
    |a| == |b| &&
    forall i :: 0 <= i < |a| ==> IsWrap(a[i]) == IsWrap(b[i]) && BufferAddress(a[i]) == BufferAddress(b[i])
  }

  /** A whole drain keeps the ring's layout: every slot's wrap marker and
      buffer address are as they were. */
  lemma {:induction false} DrainKeepsLayout(st: RxState, mem: seq<bv8>)
    requires st.Valid() && AllFit(st, |mem|)
    ensures SameLayout(Drain(st, mem).state.descs, st.descs)
    decreases CountNew(st.descs)
  {
    if Deliverable(st.descs[st.current]) {
      var next := Advance(st);
      AdvanceDeliverable(st, |mem|);
      AdvanceKeepsLayout(st);
      DrainKeepsLayout(next, mem);
      assert Drain(st, mem).state == Drain(next, mem).state;
      SameLayoutTrans(Drain(next, mem).state.descs, next.descs, st.descs);
    }
  }

  lemma SameLayoutTrans(a: seq<Bd>, b: seq<Bd>, c: seq<Bd>)
    requires SameLayout(a, b) && SameLayout(b, c)
    ensures SameLayout(a, c)
  {
  }

  /** So a ring with one wrap marker, on its last slot, still has exactly
      that one after a drain. */
  lemma DrainKeepsOneWrap(st: RxState, mem: seq<bv8>)
    requires st.Valid() && AllFit(st, |mem|) && OneWrapAtEnd(st.descs, st.length)
    ensures OneWrapAtEnd(Drain(st, mem).state.descs, st.length)
  {
    DrainKeepsLayout(st, mem);
  }

  /** A refused slot is left in place: with hardware frozen, every further
      poll stops at it and delivers nothing. */
  lemma DrainStalls(st: RxState, mem: seq<bv8>)
    requires st.Valid() && AllFit(st, |mem|)
    ensures var r := Drain(st, mem); Drain(r.state, mem) == Drained(r.state, [])
  {
  }

  /** A single-buffer frame descriptor as hardware leaves it. */
  function FrameSlot(addr: bv32, len: bv32): Bd
  {
    Bd(addr | RXBUF_NEW_MASK, RXBUF_SOF_MASK | RXBUF_EOF_MASK | len)
  }

  /** What Xgmac_process_rx sees in such a descriptor. */
  lemma FrameSlotFacts(addr: bv32, len: bv32)
    requires addr & 3 == 0 && addr != 0 && len <= RXBUF_LEN_MASK
    ensures BufferAddress(FrameSlot(addr, len)) == addr && LengthField(FrameSlot(addr, len)) == len
    ensures Inspect(FrameSlot(addr, len)) == if len == 0 then ZeroLength else Accept
  {
  }

  /** Three slots holding frames of 64, 1500 and 0 bytes: the first two are
      delivered, the zero-length one is refused and stays owned by software,
      and the cursor stops on it. */
  lemma ThreeSlotExample(mem: seq<bv8>)
    requires |mem| >= 0x2000
    ensures var st := RxState([FrameSlot(0x1000, 64), FrameSlot(0x1600, 1500), FrameSlot(0x1C00, 0)], 3, 0, 0);
      st.Valid() && AllFit(st, |mem|) &&
      var r := Drain(st, mem);
      |r.frames| == 2 && r.frames[0] == mem[0x1000..0x1040] && r.frames[1] == mem[0x1600..0x1BDC] &&
      r.state.current == 2 && IsNew(r.state.descs[2])
  {
    var st := RxState([FrameSlot(0x1000, 64), FrameSlot(0x1600, 1500), FrameSlot(0x1C00, 0)], 3, 0, 0);
    FrameSlotFacts(0x1000, 64);
    FrameSlotFacts(0x1600, 1500);
    FrameSlotFacts(0x1C00, 0);
    assert AllFit(st, |mem|);
    var s1 := Advance(st);
    AdvanceDeliverable(st, |mem|);
    var s2 := Advance(s1);
    AdvanceDeliverable(s1, |mem|);
    assert s2.current == 2 && s2.descs[2] == st.descs[2];
    assert Drain(s2, mem) == Drained(s2, []);
    assert Drain(s1, mem).frames == [mem[0x1600..0x1BDC]];
  }
}
