/** The provided-buffer ring of one group: the slots shared with the kernel, the wrapping u16 tail,
    and the three operations user code performs on them. */
module BufRings {
  import opened Bits
  import opened Outcomes
  import opened Windows

  /** One entry of the ring; the two reserved bytes are treated in RingBytes. */
  datatype Slot = Slot(addr: nat, len: nat, bid: nat)

  datatype Ring = Ring(slots: seq<Slot>, tail: nat)

  /** A buffer owned by user code: what a completion hands over and what dropping it gives back. */
  datatype KernelBuffer = KernelBuffer(addr: nat, dataLen: nat, bid: nat, bgid: nat, bufLen: nat)

  predicate Sized(r: Ring, k: nat) {
    k <= 15 && |r.slots| == Pow2(k) && r.tail < U16
  }

  /** The slot an add writes: the tail plus an offset, modulo the ring size. It does not depend on
      the buffer id. SlotIndexIsMasked ties it to the mask the code computes. */
  function SlotIndex(r: Ring, offset: nat): (idx: nat)
    requires |r.slots| > 0
    ensures idx < |r.slots|
  {
    Mod(r.tail + offset, |r.slots|)
  }

  lemma SlotIndexIsMasked(r: Ring, k: nat, offset: nat)
    requires Sized(r, k)
    ensures SlotIndex(r, offset) == And(r.tail + offset, |r.slots| - 1)
  {
    AndMask(r.tail + offset, k);
  }

  function Add(r: Ring, k: nat, s: Slot, offset: nat): (r': Ring)
    requires Sized(r, k)
    ensures Sized(r', k)
  {
    r.(slots := r.slots[SlotIndex(r, offset) := s])
  }

  function Advance(r: Ring, k: nat, count: nat): (r': Ring)
    requires Sized(r, k)
    ensures Sized(r', k)
  {
    r.(tail := (r.tail + count) % 0x1_0000)
  }

  /** Dropping a buffer: one add at offset 0, then one advance. */
  function Return(r: Ring, k: nat, b: KernelBuffer): (r': Ring)
    requires Sized(r, k)
    ensures Sized(r', k)
  {
    Advance(Add(r, k, Slot(b.addr, b.bufLen, b.bid), 0), k, 1)
  }

  /** The lookup made for a completion: it indexes the ring by buffer id. */
  function GetReadBuf(r: Ring, bgid: nat, bid: nat, dataLen: nat): Outcome<KernelBuffer> {
    if bid >= |r.slots| || r.slots[bid].bid != bid then Panic(BufferIdMismatch)
    else if r.slots[bid].len < dataLen % 0x1_0000_0000 then Panic(DataExceedsBuffer)
    else Ok(KernelBuffer(r.slots[bid].addr, dataLen, r.slots[bid].bid, bgid, r.slots[bid].len))
  }

  /** The lookup succeeds exactly when the slot of that id holds that id and its buffer is as long as
      the low 32 bits of the data length; it then hands out that slot's memory. */
  lemma GetReadBufIff(r: Ring, bgid: nat, bid: nat, dataLen: nat)
    ensures GetReadBuf(r, bgid, bid, dataLen).Ok? <==>
      bid < |r.slots| && r.slots[bid].bid == bid && dataLen % 0x1_0000_0000 <= r.slots[bid].len
    ensures GetReadBuf(r, bgid, bid, dataLen).Ok? ==>
      var b := GetReadBuf(r, bgid, bid, dataLen).value;
      && b.addr == r.slots[bid].addr && b.bufLen == r.slots[bid].len
      && b.dataLen == dataLen && b.bid == bid && b.bgid == bgid
  {
  }

  // ---------- The layout every lookup relies on ----------

  /** The address of block `i` of an allocation. */
  function Block(base: nat, size: nat, i: nat): (addr: nat)
    ensures base <= addr
  {
    if i == 0 then base else Block(base, size, i - 1) + size
  }

  lemma {:induction false} BlockAddress(base: nat, size: nat, i: nat)
    ensures Block(base, size, i) == base + i * size
    decreases i
  {
    if i > 0 { BlockAddress(base, size, i - 1); }
  }

  function Home(base: nat, size: nat, i: nat): Slot { Slot(Block(base, size, i), size, i) }

  /** Blocks do not overlap, and each ends where the next begins. */
  lemma {:induction false} BlocksApart(base: nat, size: nat, i: nat, j: nat)
    requires i < j
    ensures Block(base, size, i) + size <= Block(base, size, j)
    decreases j
  {
    if i + 1 < j { BlocksApart(base, size, i, j - 1); }
  }

  /** Slot index equals buffer id, and each slot names its own block of the allocation. */
  predicate Identity(r: Ring, base: nat, size: nat) {
    forall i :: 0 <= i < |r.slots| ==> r.slots[i] == Home(base, size, i)
  }

  lemma LookupUnderIdentity(r: Ring, base: nat, size: nat, bgid: nat, bid: nat, len: nat)
    requires Identity(r, base, size) && bid < |r.slots| && len <= size < U32
    ensures GetReadBuf(r, bgid, bid, len) == Ok(KernelBuffer(Block(base, size, bid), len, bid, bgid, size))
  {
    assert r.slots[bid] == Home(base, size, bid);
  }

  /** Returning a group buffer keeps the layout exactly when its id is `tail & mask`. */
  lemma {:induction false} ReturnKeepsIdentityIff(r: Ring, k: nat, base: nat, size: nat, b: KernelBuffer)
    requires Sized(r, k) && Identity(r, base, size) && b.bid < |r.slots|
    requires b.addr == Block(base, size, b.bid) && b.bufLen == size
    ensures Identity(Return(r, k, b), base, size) <==> b.bid == SlotIndex(r, 0)
    ensures b.bid == SlotIndex(r, 0) ==> Return(r, k, b).slots == r.slots
  {
    var idx := SlotIndex(r, 0);
    var r' := Return(r, k, b);
    assert r'.slots[idx].bid == b.bid;
    if b.bid == idx {
      assert r.slots[idx] == Home(base, size, idx);
      assert r'.slots == r.slots;
    } else {
      assert r'.slots[idx] != Home(base, size, idx);
    }
  }

  // ---------- Setup ----------

  /** The first `i` iterations of the loop that fills a new ring. */
  function Fill(r: Ring, k: nat, base: nat, size: nat, i: nat): (r': Ring)
    requires Sized(r, k)
    ensures Sized(r', k)
  {
    if i == 0 then r else Add(Fill(r, k, base, size, i - 1), k, Home(base, size, i - 1), i - 1)
  }

  /** Filling a ring and publishing all its slots with one advance. */
  function NewGroup(r: Ring, k: nat, base: nat, size: nat): (r': Ring)
    requires Sized(r, k)
    ensures Sized(r', k)
  {
    var f := Fill(r, k, base, size, |r.slots|);
    Advance(f, k, |r.slots|)
  }

  /** Iteration i lands in slot (tail + i) & mask, the n slots written are distinct, and so every
      earlier one keeps its buffer. */
  lemma {:induction false} FillSlots(r: Ring, k: nat, base: nat, size: nat, i: nat)
    requires Sized(r, k) && i <= |r.slots|
    ensures Fill(r, k, base, size, i).tail == r.tail
    ensures forall j :: 0 <= j < i ==>
      Fill(r, k, base, size, i).slots[SlotIndex(r, j)] == Home(base, size, j)
  {
    if i > 0 {
      FillSlots(r, k, base, size, i - 1);
      var before, after := Fill(r, k, base, size, i - 1), Fill(r, k, base, size, i);
      var last := SlotIndex(r, i - 1);
      assert after.slots == before.slots[last := Home(base, size, i - 1)];
      forall j | 0 <= j < i
        ensures after.slots[SlotIndex(r, j)] == Home(base, size, j)
      {
        if j < i - 1 { ModDistinct(r.tail + j, r.tail + (i - 1), |r.slots|); }
      }
    }
  }

  lemma {:induction false} SlotAtMultiple(r: Ring, k: nat, i: nat)
    requires Sized(r, k) && Mod(r.tail, |r.slots|) == 0 && i < |r.slots|
    ensures SlotIndex(r, i) == i
  {
    ModShift(r.tail, i, |r.slots|);
  }

  /** Setup yields the identity layout exactly when the starting tail is a multiple of the ring
      size. A new ring starts at tail 0. */
  lemma {:induction false} SetupIdentityIff(r: Ring, k: nat, base: nat, size: nat)
    requires Sized(r, k)
    ensures Identity(NewGroup(r, k, base, size), base, size) <==> Mod(r.tail, |r.slots|) == 0
  {
    var f := Fill(r, k, base, size, |r.slots|);
    FillSlots(r, k, base, size, |r.slots|);
    FilledIdentityIff(r, k, base, size, f);
    assert NewGroup(r, k, base, size).slots == f.slots;
  }

  lemma {:induction false} SetupTail(r: Ring, k: nat, base: nat, size: nat)
    requires Sized(r, k)
    ensures NewGroup(r, k, base, size).tail == (r.tail + |r.slots|) % 0x1_0000
  {
    FillSlots(r, k, base, size, |r.slots|);
  }

  lemma {:induction false} FilledIdentityIff(r: Ring, k: nat, base: nat, size: nat, f: Ring)
    requires Sized(r, k) && |f.slots| == |r.slots|
    requires forall j :: 0 <= j < |r.slots| ==> f.slots[SlotIndex(r, j)] == Home(base, size, j)
    ensures Identity(f, base, size) <==> Mod(r.tail, |r.slots|) == 0
  {
    var first := SlotIndex(r, 0);
    assert f.slots[first] == Home(base, size, 0);
    if first == 0 {
      forall i | 0 <= i < |f.slots|
        ensures f.slots[i] == Home(base, size, i)
      {
        SlotAtMultiple(r, k, i);
      }
    } else {
      assert f.slots[first] != Home(base, size, first);
    }
  }

  // ---------- The wrapping tail ----------

  /** With both 16-bit counters derived from unbounded ones, the ring size selects the slot of the
      true count and the wrapped distance is the true number of published buffers. */
  lemma {:induction false} WrappedTail(taken: nat, returned: nat, k: nat, offset: nat)
    requires k <= 15 && taken <= returned <= taken + Pow2(k)
    ensures Mod(returned % 0x1_0000 + offset, Pow2(k)) == Mod(returned + offset, Pow2(k))
    ensures Mod(taken % 0x1_0000, Pow2(k)) == Mod(taken, Pow2(k))
    ensures (returned % 0x1_0000 - taken % 0x1_0000) % 0x1_0000 == returned - taken <= Pow2(k)
    ensures returned % 0x1_0000 == taken % 0x1_0000 <==> returned == taken
  {
    RingFits(k);
    WrapIndex16(returned, offset, k);
    WrapMod16(taken, k);
    WrapDistance16(taken, returned);
    WrapEqual16(taken, returned);
  }

  /** The same for the mask computed from the wrapped tail. */
  lemma {:induction false} MaskedTail(returned: nat, k: nat, offset: nat)
    requires k <= 15
    ensures And(returned % 0x1_0000 + offset, Pow2(k) - 1) == (returned + offset) % Pow2(k)
  {
    AndMask(returned % 0x1_0000 + offset, k);
    WrapIndex16(returned, offset, k);
    ModIsRemainder(returned + offset, Pow2(k));
  }
}
