/** The buffer ring as the bytes it is made of. Slot i occupies bytes 16i to 16i+15; the u16 tail
    overlays bytes 14 and 15, which are the reserved bytes of slot 0. */
module RingMemory {
  import opened Bits
  import opened Outcomes
  import opened BufRings

  const SLOT_SIZE: nat := 16
  const LEN_OFFSET: nat := 8
  const BID_OFFSET: nat := 12
  const TAIL_OFFSET: nat := 14

  // ---------- Little-endian words in a byte sequence ----------

  function Load(s: seq<byte>, off: nat, width: nat): nat
    requires off + width <= |s|
    decreases width
  {
    if width == 0 then 0 else s[off] + 0x100 * Load(s, off + 1, width - 1)
  }

  function Store(s: seq<byte>, off: nat, width: nat, v: nat): (s': seq<byte>)
    requires off + width <= |s|
    ensures |s'| == |s|
    ensures forall i :: 0 <= i < |s| && !(off <= i < off + width) ==> s'[i] == s[i]
    decreases width
  {
    if width == 0 then s else Store(s[off := v % 0x100], off + 1, width - 1, v / 0x100)
  }

  function Range(width: nat): (r: nat)
    ensures r > 0
  {
    if width == 0 then 1 else 0x100 * Range(width - 1)
  }

  lemma {:induction false} LoadFrame(s: seq<byte>, s': seq<byte>, off: nat, width: nat)
    requires off + width <= |s| && off + width <= |s'|
    requires forall i :: off <= i < off + width ==> s[i] == s'[i]
    ensures Load(s, off, width) == Load(s', off, width)
    decreases width
  {
    if width > 0 { LoadFrame(s, s', off + 1, width - 1); }
  }

  lemma {:induction false} LoadStore(s: seq<byte>, off: nat, width: nat, v: nat)
    requires off + width <= |s| && v < Range(width)
    ensures Load(Store(s, off, width, v), off, width) == v
    decreases width
  {
    if width > 0 {
      LoadStore(s[off := v % 0x100], off + 1, width - 1, v / 0x100);
      assert Store(s, off, width, v)[off] == v % 0x100;
    }
  }

  lemma {:induction false} LoadRange(s: seq<byte>, off: nat, width: nat)
    requires off + width <= |s|
    ensures Load(s, off, width) < Range(width)
    decreases width
  {
    if width > 0 { LoadRange(s, off + 1, width - 1); }
  }

  lemma Ranges()
    ensures Range(2) == U16 && Range(4) == U32 && Range(8) == U64
  {
    assert Range(2) == U16;
    assert Range(4) == 0x1_0000 * Range(2);
    assert Range(6) == 0x1_0000 * Range(4);
    assert Range(8) == 0x1_0000 * Range(6);
  }

  // ---------- Slots and tail ----------

  predicate InRange(e: Slot) { e.addr < U64 && e.len < U32 && e.bid < U16 }

  function SlotAt(s: seq<byte>, i: nat): Slot
    requires SLOT_SIZE * i + SLOT_SIZE <= |s|
  {
    Slot(Load(s, SLOT_SIZE * i, 8), Load(s, SLOT_SIZE * i + LEN_OFFSET, 4), Load(s, SLOT_SIZE * i + BID_OFFSET, 2))
  }

  function RingOf(s: seq<byte>, n: nat): (r: Ring)
    requires n > 0 && |s| == SLOT_SIZE * n
    ensures |r.slots| == n
  {
    Ring(seq(n, i requires 0 <= i < n => SlotAt(s, i)), Load(s, TAIL_OFFSET, 2))
  }

  /** The three field stores of an add. */
  function StoreSlot(s: seq<byte>, i: nat, e: Slot): (s': seq<byte>)
    requires SLOT_SIZE * i + SLOT_SIZE <= |s|
    ensures |s'| == |s|
  {
    var at := SLOT_SIZE * i;
    Store(Store(Store(s, at, 8, e.addr), at + LEN_OFFSET, 4, e.len), at + BID_OFFSET, 2, e.bid)
  }

  lemma {:induction false} StoredSlot(s: seq<byte>, i: nat, e: Slot)
    requires SLOT_SIZE * i + SLOT_SIZE <= |s| && InRange(e)
    ensures SlotAt(StoreSlot(s, i, e), i) == e
    ensures forall b :: 0 <= b < |s| && !(SLOT_SIZE * i <= b < SLOT_SIZE * i + TAIL_OFFSET) ==>
      StoreSlot(s, i, e)[b] == s[b]
  {
    Ranges();
    var at := SLOT_SIZE * i;
    var s1 := Store(s, at, 8, e.addr);
    var s2 := Store(s1, at + LEN_OFFSET, 4, e.len);
    var s3 := Store(s2, at + BID_OFFSET, 2, e.bid);
    LoadStore(s, at, 8, e.addr);
    LoadFrame(s1, s2, at, 8);
    LoadFrame(s2, s3, at, 8);
    LoadStore(s1, at + LEN_OFFSET, 4, e.len);
    LoadFrame(s2, s3, at + LEN_OFFSET, 4);
    LoadStore(s2, at + BID_OFFSET, 2, e.bid);
  }

  lemma {:induction false} SlotFrame(s: seq<byte>, s': seq<byte>, i: nat)
    requires SLOT_SIZE * i + SLOT_SIZE <= |s| == |s'|
    requires forall b :: SLOT_SIZE * i <= b < SLOT_SIZE * i + TAIL_OFFSET ==> s[b] == s'[b]
    ensures SlotAt(s, i) == SlotAt(s', i)
  {
    LoadFrame(s, s', SLOT_SIZE * i, 8);
    LoadFrame(s, s', SLOT_SIZE * i + LEN_OFFSET, 4);
    LoadFrame(s, s', SLOT_SIZE * i + BID_OFFSET, 2);
  }

  /** Filling any slot, slot 0 included, changes that slot alone and leaves the tail as it is. */
  lemma {:induction false} StoreSlotKeepsTail(s: seq<byte>, n: nat, i: nat, e: Slot)
    requires |s| == SLOT_SIZE * n && i < n && InRange(e)
    ensures RingOf(StoreSlot(s, i, e), n) == Ring(RingOf(s, n).slots[i := e], RingOf(s, n).tail)
  {
    var s' := StoreSlot(s, i, e);
    StoredSlot(s, i, e);
    forall j | 0 <= j < n
      ensures SlotAt(s', j) == if j == i then e else SlotAt(s, j)
    {
      if j != i { SlotFrame(s, s', j); }
    }
    LoadFrame(s, s', TAIL_OFFSET, 2);
    assert RingOf(s', n).slots == RingOf(s, n).slots[i := e];
  }

  /** Moving the tail changes no slot's address, length or id. */
  lemma {:induction false} StoreTailKeepsSlots(s: seq<byte>, n: nat, tail: nat)
    requires n > 0 && |s| == SLOT_SIZE * n && tail < U16
    ensures RingOf(Store(s, TAIL_OFFSET, 2, tail), n) == Ring(RingOf(s, n).slots, tail)
  {
    Ranges();
    var s' := Store(s, TAIL_OFFSET, 2, tail);
    LoadStore(s, TAIL_OFFSET, 2, tail);
    forall j | 0 <= j < n
      ensures SlotAt(s', j) == SlotAt(s, j)
    {
      SlotFrame(s, s', j);
    }
    assert RingOf(s', n).slots == RingOf(s, n).slots;
  }

  // ---------- The shared ring ----------

  class BufRing {
    const k: nat
    const mem: array<byte>

    predicate Valid() { k <= 15 && mem.Length == SLOT_SIZE * Pow2(k) }

    function Abs(): (r: Ring)
      requires Valid()
      reads mem
      ensures Sized(r, k)
    {
      LoadRange(mem[..], TAIL_OFFSET, 2);
      Ranges();
      RingOf(mem[..], Pow2(k))
    }

    /** A ring as the kernel hands it out: zeroed memory, tail 0. */
    constructor (k: nat)
      requires k <= 15
      ensures Valid() && this.k == k && fresh(mem)
      ensures Abs().tail == 0
    {
      this.k := k;
      mem := new byte[SLOT_SIZE * Pow2(k)](_ => 0);
      new;
      assert mem[TAIL_OFFSET] == 0 && mem[TAIL_OFFSET + 1] == 0;
      assert Load(mem[..], TAIL_OFFSET + 1, 1) == 0;
    }

    /** A plain store of a little-endian word, byte by byte. */
    method StoreWord(off: nat, width: nat, v: nat)
      requires off + width <= mem.Length
      modifies mem
      ensures mem[..] == Store(old(mem[..]), off, width, v)
    {
      var i, rest := 0, v;
      while i < width
        invariant i <= width
        invariant Store(mem[..], off + i, width - i, rest) == Store(old(mem[..]), off, width, v)
      {
        ghost var before := mem[..];
        mem[off + i] := rest % 0x100;
        assert mem[..] == before[off + i := rest % 0x100];
        i, rest := i + 1, rest / 0x100;
      }
    }

    method LoadWord(off: nat, width: nat) returns (v: nat)
      requires off + width <= mem.Length
      ensures v == Load(mem[..], off, width)
    {
      v := 0;
      var i := width;
      while i > 0
        invariant 0 <= i <= width
        invariant v == Load(mem[..], off + i, width - i)
      {
        i := i - 1;
        v := mem[off + i] + 0x100 * v;
      }
    }

    /** `io_uring_buf_ring_add`: fill the slot at (tail + offset) & mask. */
    method Add(addr: nat, len: nat, bid: nat, mask: nat, offset: nat)
      requires Valid() && mask == Pow2(k) - 1 && InRange(Slot(addr, len, bid))
      modifies mem
      ensures Abs() == BufRings.Add(old(Abs()), k, Slot(addr, len, bid), offset)
    {
      hide And, Mod, Store, Load;
      var tail := LoadWord(TAIL_OFFSET, 2);
      var idx := And(tail + offset, mask);
      SlotIndexIsMasked(Abs(), k, offset);
      StoreWord(SLOT_SIZE * idx, 8, addr);
      StoreWord(SLOT_SIZE * idx + LEN_OFFSET, 4, len);
      StoreWord(SLOT_SIZE * idx + BID_OFFSET, 2, bid);
      assert mem[..] == StoreSlot(old(mem[..]), idx, Slot(addr, len, bid));
      StoreSlotKeepsTail(old(mem[..]), Pow2(k), idx, Slot(addr, len, bid));
    }

    /** `io_uring_buf_ring_advance`: a wrapping 16-bit fetch-and-add of the tail. */
    method Advance(count: nat)
      requires Valid()
      modifies mem
      ensures Abs() == BufRings.Advance(old(Abs()), k, count)
    {
      var tail := LoadWord(TAIL_OFFSET, 2);
      StoreWord(TAIL_OFFSET, 2, (tail + count) % 0x1_0000);
      StoreTailKeepsSlots(old(mem[..]), Pow2(k), (tail + count) % 0x1_0000);
    }

    /** `buf_ring_add_advance`: what dropping a buffer does. */
    method AddAdvance(b: KernelBuffer)
      requires Valid() && InRange(Slot(b.addr, b.bufLen, b.bid))
      modifies mem
      ensures Abs() == Return(old(Abs()), k, b)
    {
      Add(b.addr, b.bufLen, b.bid, Pow2(k) - 1, 0);
      Advance(1);
    }

    /** The setup loop: every buffer added at its own offset, then one advance by all of them. */
    method FillAll(base: nat, size: nat)
      requires Valid() && size < U32 && base + Pow2(k) * size < U64
      modifies mem
      ensures Abs() == NewGroup(old(Abs()), k, base, size)
    {
      hide And, Mod, Pow2, RingOf, NewGroup;
      var n := Pow2(k);
      RingFits(k);
      var i := 0;
      while i < n
        invariant i <= n
        invariant Abs() == Fill(old(Abs()), k, base, size, i)
      {
        BlockAddress(base, size, i);
        BlockInside(base, size, i, n);
        Add(base + i * size, size, i, n - 1, i);
        i := i + 1;
      }
      Advance(n);
      NewGroupIsFill(old(Abs()), k, base, size);
    }

    /** The lookup for a completion, by buffer id. */
    method GetReadBuf(bgid: nat, bid: nat, dataLen: nat) returns (r: Outcome<KernelBuffer>)
      requires Valid()
      ensures r == BufRings.GetReadBuf(Abs(), bgid, bid, dataLen)
    {
      if bid >= Pow2(k) { return Panic(BufferIdMismatch); }
      var addr := LoadWord(SLOT_SIZE * bid, 8);
      var len := LoadWord(SLOT_SIZE * bid + LEN_OFFSET, 4);
      var slotBid := LoadWord(SLOT_SIZE * bid + BID_OFFSET, 2);
      assert Abs().slots[bid] == Slot(addr, len, slotBid);
      if slotBid != bid { return Panic(BufferIdMismatch); }
      if len < dataLen % 0x1_0000_0000 { return Panic(DataExceedsBuffer); }
      return Ok(KernelBuffer(addr, dataLen, slotBid, bgid, len));
    }
  }

  lemma NewGroupIsFill(r: Ring, k: nat, base: nat, size: nat)
    requires Sized(r, k)
    ensures NewGroup(r, k, base, size) == BufRings.Advance(Fill(r, k, base, size, Pow2(k)), k, Pow2(k))
  {
    hide Fill;
  }

  lemma {:induction false} BlockInside(base: nat, size: nat, i: nat, n: nat)
    requires i < n
    ensures base <= base + i * size <= base + n * size
  {
    BlocksApart(base, size, i, n);
    BlockAddress(base, size, i);
    BlockAddress(base, size, n);
  }
}
