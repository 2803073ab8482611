/** Receive buffer descriptors of the Zynq GEM DMA engine.

    A descriptor is two 32-bit words. Word 0 holds the buffer address in its
    upper 30 bits, the "new frame" (software-owned) bit 0 and the wrap bit 1.
    Word 1 holds the status: frame length, start-of-frame and end-of-frame. */
module Descriptor {

  // Word 0
  const RXBUF_NEW_MASK: bv32 := 0x0000_0001
  const RXBUF_WRAP_MASK: bv32 := 0x0000_0002
  const RXBUF_ADD_MASK: bv32 := 0xFFFF_FFFC
  // Word 1
  const RXBUF_LEN_MASK: bv32 := 0x0000_1FFF
  const RXBUF_SOF_MASK: bv32 := 0x0000_4000
  const RXBUF_EOF_MASK: bv32 := 0x0000_8000

  /** Status word the driver stores into a descriptor it hands back to hardware. */
  const RX_STAT_RELEASED: bv32 := 0xF000_0000

  /** Bytes per receive buffer, and number of receive descriptors. */
  const RX_BUF_SIZE: nat := 1536
  const RXBD_CNT: nat := 8

  /** Status register RXSR: "frame received" bit. */
  const RXSR_FRAMERX_MASK: bv32 := 0x0000_0002

  datatype Bd = Bd(word0: bv32, word1: bv32)

  predicate IsNew(b: Bd) { b.word0 & RXBUF_NEW_MASK != 0 }
  predicate IsWrap(b: Bd) { b.word0 & RXBUF_WRAP_MASK != 0 }
  predicate IsSof(b: Bd) { b.word1 & RXBUF_SOF_MASK != 0 }
  predicate IsEof(b: Bd) { b.word1 & RXBUF_EOF_MASK != 0 }

  /** The length field of the status word, and the same as a byte count. */
  function LengthField(b: Bd): bv32
  {
    b.word1 & RXBUF_LEN_MASK
  }

  function FrameLength(b: Bd): (n: nat)
    ensures n < 0x2000
    ensures n == 0 <==> LengthField(b) == 0
  {
    LengthField(b) as nat
  }

  function BufferAddress(b: Bd): bv32
  {
    b.word0 & RXBUF_ADD_MASK
  }

  /** The value Xgmac_init_rxq stores into every slot. */
  const ClearedBd: Bd := Bd(0, RX_STAT_RELEASED)

  /** Hand a descriptor back to hardware: clear its NEW bit, then store the
      released status word. */
  function Released(b: Bd): (r: Bd)
    ensures !IsNew(r) && !IsSof(r) && !IsEof(r) && LengthField(r) == 0
    ensures IsWrap(r) == IsWrap(b) && BufferAddress(r) == BufferAddress(b)
  {
    ClearNewBits(b.word0);
    Bd(b.word0 & !RXBUF_NEW_MASK, RX_STAT_RELEASED)
  }

  /** Store a buffer address into word 0, keeping the NEW and wrap bits. */
  function SetAddressRx(b: Bd, addr: bv32): (r: Bd)
    ensures addr & 3 == 0 ==> BufferAddress(r) == addr && IsNew(r) == IsNew(b) && IsWrap(r) == IsWrap(b)
    ensures r.word1 == b.word1
  {
    SetAddressBits(b.word0, addr);
    b.(word0 := (b.word0 & !RXBUF_ADD_MASK) | addr)
  }

  /** Mark a descriptor as the last one of the ring. */
  function SetRxWrap(b: Bd): (r: Bd)
    ensures IsWrap(r) && IsNew(r) == IsNew(b) && BufferAddress(r) == BufferAddress(b)
    ensures r.word1 == b.word1
  {
    SetWrapBits(b.word0);
    b.(word0 := b.word0 | RXBUF_WRAP_MASK)
  }

  // Bit facts about word 0, one word at a time.
  lemma ClearNewBits(w: bv32)
    ensures (w & !RXBUF_NEW_MASK) & RXBUF_NEW_MASK == 0
    ensures (w & !RXBUF_NEW_MASK) & RXBUF_WRAP_MASK == w & RXBUF_WRAP_MASK
    ensures (w & !RXBUF_NEW_MASK) & RXBUF_ADD_MASK == w & RXBUF_ADD_MASK
  {
  }

  lemma SetAddressBits(w: bv32, addr: bv32)
    ensures addr & 3 == 0 ==> ((w & !RXBUF_ADD_MASK) | addr) & RXBUF_ADD_MASK == addr
    ensures addr & 3 == 0 ==> ((w & !RXBUF_ADD_MASK) | addr) & RXBUF_NEW_MASK == w & RXBUF_NEW_MASK
    ensures addr & 3 == 0 ==> ((w & !RXBUF_ADD_MASK) | addr) & RXBUF_WRAP_MASK == w & RXBUF_WRAP_MASK
  {
  }

  lemma SetWrapBits(w: bv32)
    ensures (w | RXBUF_WRAP_MASK) & RXBUF_WRAP_MASK != 0
    ensures (w | RXBUF_WRAP_MASK) & RXBUF_NEW_MASK == w & RXBUF_NEW_MASK
    ensures (w | RXBUF_WRAP_MASK) & RXBUF_ADD_MASK == w & RXBUF_ADD_MASK
  {
  }

  /** Why Xgmac_process_rx takes or refuses a descriptor, in the order it checks. */
  datatype RxVerdict = NotNew | MissingSof | MissingEof | ZeroLength | NullBuffer | Accept

  function Inspect(b: Bd): (v: RxVerdict)
    ensures v == Accept <==>
              IsNew(b) && IsSof(b) && IsEof(b) && LengthField(b) != 0 && BufferAddress(b) != 0
    ensures v == NotNew <==> !IsNew(b)
  {
    if !IsNew(b) then NotNew
    else if !IsSof(b) then MissingSof
    else if !IsEof(b) then MissingEof
    else if LengthField(b) == 0 then ZeroLength
    else if BufferAddress(b) == 0 then NullBuffer
    else Accept
  }

  predicate Deliverable(b: Bd) { Inspect(b) == Accept }

  /** A deliverable descriptor's frame lies inside memory of `memLen` bytes
      and fits the driver's staging buffer. The driver does not check this. */
  predicate Fits(b: Bd, memLen: nat)
  {
    Deliverable(b) ==>
      FrameLength(b) <= RX_BUF_SIZE && BufferAddress(b) as nat + FrameLength(b) <= memLen
  }

  /** A released descriptor is never delivered again until hardware refills it. */
  lemma ReleasedNotDeliverable(b: Bd)
    ensures !Deliverable(Released(b)) && Inspect(Released(b)) == NotNew
    ensures forall memLen: nat :: Fits(Released(b), memLen)
  {
  }
}
