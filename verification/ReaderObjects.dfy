/** The pool of buffer rings and the reader objects, working in place on shared memory. */
module ReaderObjects {
  import opened Bits
  import opened Outcomes
  import opened BufRings
  import opened Readers
  import opened RingMemory
  import Streams

  /** A kernel buffer together with the ring it must go back to. */
  datatype OwnedBuffer = OwnedBuffer(kb: KernelBuffer, ring: BufRing)

  predicate Returnable(b: OwnedBuffer) {
    b.ring.Valid() && InRange(Slot(b.kb.addr, b.kb.bufLen, b.kb.bid))
  }

  /** Pointers to the rings of the registered groups, by group id; null where there is none. */
  class BufRingPool {
    const ptrs: array<BufRing?>

    ghost predicate Valid()
      reads ptrs
    {
      && ptrs.Length == Streams.MAX_BUFFER_GROUP
      && (forall i :: 0 <= i < ptrs.Length && ptrs[i] != null ==> ptrs[i].Valid())
    }

    ghost function Mems(): set<object>
      reads ptrs
    {
      set i | 0 <= i < ptrs.Length && ptrs[i] != null :: ptrs[i].mem as object
    }

    ghost function Rings(): (r: seq<Option<Ring>>)
      requires Valid()
      reads ptrs, Mems()
      ensures |r| == ptrs.Length
    {
      seq(ptrs.Length, i requires Valid() && 0 <= i < ptrs.Length reads ptrs, Mems() =>
        if ptrs[i] == null then None else Some(ptrs[i].Abs()))
    }

    constructor ()
      ensures Valid() && fresh(ptrs) && forall i :: 0 <= i < ptrs.Length ==> ptrs[i] == null
      ensures forall i :: 0 <= i < |Rings()| ==> Rings()[i] == None
    {
      ptrs := new BufRing?[Streams.MAX_BUFFER_GROUP](_ => null);
    }

    /** Fill the ring the kernel registered and remember it; an id already in use is overwritten. */
    method NewBufferGroup(ring: BufRing, bgid: nat, base: nat, size: nat) returns (r: Outcome<()>)
      requires Valid() && ring.Valid() && ring.mem !in Mems()
      requires size < U32 && base + Pow2(ring.k) * size < U64
      modifies ptrs, ring.mem
      ensures Valid()
      ensures r.Ok? <==> bgid < Streams.MAX_BUFFER_GROUP
      ensures r.Ok? ==> Rings() == old(Rings())[bgid := Some(NewGroup(old(ring.Abs()), ring.k, base, size))]
      ensures r.Ok? ==> ptrs[..] == old(ptrs[..])[bgid := ring]
      ensures r.Panic? ==> Rings() == old(Rings())
    {
      ring.FillAll(base, size);
      assert Rings() == old(Rings());
      if bgid >= Streams.MAX_BUFFER_GROUP { return Panic(RingPointerMissing); }
      ptrs[bgid] := ring;
      assert Rings() == old(Rings())[bgid := Some(ring.Abs())];
      r := Ok(());
    }

    method GetReadBuf(bgid: nat, bid: nat, dataLen: nat) returns (r: Outcome<OwnedBuffer>)
      requires Valid()
      ensures bgid >= |Rings()| || Rings()[bgid].None? ==> r == Panic(RingPointerMissing)
      ensures bgid < |Rings()| && Rings()[bgid].Some? ==>
        match BufRings.GetReadBuf(Rings()[bgid].value, bgid, bid, dataLen)
        case Panic(site) => r == Panic(site)
        case Ok(kb) => r == Ok(OwnedBuffer(kb, ptrs[bgid])) && Returnable(r.value)
    {
      if bgid >= ptrs.Length || ptrs[bgid] == null { return Panic(RingPointerMissing); }
      var ring := ptrs[bgid];
      var found := ring.GetReadBuf(bgid, bid, dataLen);
      match found {
        case Panic(site) => r := Panic(site);
        case Ok(kb) =>
          SlotsInRange(ring, kb.bid);
          r := Ok(OwnedBuffer(kb, ring));
      }
    }
  }

  /** Every slot read from memory fits its fields. */
  lemma {:induction false} SlotsInRange(ring: BufRing, i: nat)
    requires ring.Valid() && i < Pow2(ring.k)
    ensures InRange(ring.Abs().slots[i])
  {
    Ranges();
    LoadRange(ring.mem[..], SLOT_SIZE * i, 8);
    LoadRange(ring.mem[..], SLOT_SIZE * i + LEN_OFFSET, 4);
    LoadRange(ring.mem[..], SLOT_SIZE * i + BID_OFFSET, 2);
  }

  class KernelBufferReader {
    var buf: Option<OwnedBuffer>
    var claimed: nat

    function Abs(): Reader
      requires buf.Some?
      reads this
    {
      Reader(buf.value.kb, claimed)
    }

    constructor (b: OwnedBuffer)
      ensures buf == Some(b) && claimed == 0
    {
      buf := Some(b);
      claimed := 0;
    }

    method Commit(len: nat) returns (r: Outcome<()>)
      requires buf.Some?
      modifies this`claimed
      ensures Abs() == Readers.Commit(old(Abs()), len)
      ensures r.Ok? <==> claimed <= buf.value.kb.dataLen
    {
      claimed := claimed + len;
      r := if claimed <= buf.value.kb.dataLen then Ok(()) else Panic(OverClaimed);
    }

    /** Copy out the next bytes, straight from shared memory, as many as fit. */
    method Read(mem: array<byte>, out: array<byte>) returns (r: Outcome<nat>)
      requires buf.Some? && InMemory(mem.Length, Abs()) && out != mem
      modifies this`claimed, out
      ensures var before := old(Abs());
        var n := Min(out.Length, before.buf.dataLen - before.claimed);
        if before.claimed == before.buf.dataLen
        then r == Panic(DrainedBufferQueued) && Abs() == before && out[..] == old(out[..])
        else
          && r == Ok(n) && Abs() == Readers.Commit(before, n)
          && out[..] == NextBytes(mem[..], before, n) + old(out[n..])
    {
      if claimed == buf.value.kb.dataLen { return Panic(DrainedBufferQueued); }
      var from, n := buf.value.kb.addr + claimed, Min(out.Length, buf.value.kb.dataLen - claimed);
      var i := 0;
      while i < n
        invariant i <= n && claimed == old(claimed)
        invariant forall k :: 0 <= k < i ==> out[k] == mem[from + k]
        invariant forall k :: i <= k < out.Length ==> out[k] == old(out[k])
      {
        out[i] := mem[from + i];
        i := i + 1;
      }
      assert out[..] == mem[from..from + n] + old(out[n..]);
      var committed := Commit(n);
      r := Ok(n);
    }

    /** Dropping the reader drops its buffer, which goes back to its ring. */
    method Drop() returns (r: Outcome<()>)
      requires buf.Some? ==> Returnable(buf.value)
      modifies this`buf, if buf.Some? then {buf.value.ring.mem} else {}
      ensures r.Ok? <==> old(buf).Some?
      ensures buf == None
      ensures old(buf).Some? ==>
        var b := old(buf).value;
        b.ring.Abs() == Return(old(b.ring.Abs()), b.ring.k, b.kb)
    {
      if buf.None? { return Panic(NothingToTake); }
      var b := buf.value;
      buf := None;
      b.ring.AddAdvance(b.kb);
      r := Ok(());
    }
  }

  class KernelBufferVecReader {
    var bufVec: seq<KernelBufferReader>
    var capacity: nat

    ghost predicate Valid()
      reads this, bufVec
    {
      && (forall i :: 0 <= i < |bufVec| ==> bufVec[i].buf.Some? && Returnable(bufVec[i].buf.value))
      && (forall i, j :: 0 <= i < j < |bufVec| ==> bufVec[i] != bufVec[j])
    }

    ghost function Queue(): (q: seq<Reader>)
      requires Valid()
      reads this, bufVec
      ensures |q| == |bufVec| && forall i :: 0 <= i < |q| ==> q[i] == bufVec[i].Abs()
    {
      seq(|bufVec|, i requires Valid() && 0 <= i < |bufVec| reads this, bufVec => bufVec[i].Abs())
    }

    constructor (capacity: nat)
      ensures Valid() && bufVec == [] && Queue() == [] && this.capacity == capacity
    {
      bufVec := [];
      this.capacity := capacity;
    }

    method Push(b: OwnedBuffer)
      requires Valid() && Returnable(b)
      modifies this
      ensures Valid() && Queue() == old(Queue()) + [Reader(b.kb, 0)]
      ensures capacity == if |old(bufVec)| >= old(capacity) then Streams.Grown(old(capacity)) else old(capacity)
      ensures bufVec[..|old(bufVec)|] == old(bufVec)
      ensures fresh(bufVec[|old(bufVec)|]) && bufVec[|old(bufVec)|].buf == Some(b)
    {
      var reader := new KernelBufferReader(b);
      if |bufVec| >= capacity { capacity := Streams.Grown(capacity); }
      bufVec := bufVec + [reader];
    }

    ghost predicate FrontReadable(mem: array<byte>, out: array<byte>)
      requires Valid()
      reads this, bufVec
    {
      && out != mem
      && (bufVec != [] ==> InMemory(mem.Length, bufVec[0].Abs()) && bufVec[0].buf.value.ring.mem != out)
    }

    /** The ring the front buffer would go back to. */
    ghost function FrontMem(): set<object>
      requires Valid()
      reads this, bufVec
    {
      if bufVec == [] then {} else {bufVec[0].buf.value.ring.mem}
    }

    /** One read: it does in place what VecRead computes, and hands the drained buffer back. */
    method Read(mem: array<byte>, out: array<byte>) returns (r: Outcome<nat>)
      requires Valid() && FrontReadable(mem, out)
      modifies this`bufVec, bufVec, out, FrontMem()
      ensures bufVec == old(bufVec) || (old(bufVec) != [] && bufVec == old(bufVec)[1..])
      ensures forall i | |old(bufVec)| - |bufVec| <= i < |old(bufVec)| :: old(bufVec)[i].buf == old(bufVec[i].buf)
      ensures match VecRead(old(mem[..]), old(Queue()), out.Length)
        case Panic(site) => r == Panic(site)
        case Ok(WouldBlock) => r == Ok(0) && Valid() && Queue() == [] && out[..] == old(out[..])
        case Ok(Got(bytes, queue, drained)) =>
          && r == Ok(|bytes|) && Valid() && Queue() == queue
          && out[..] == bytes + old(out[|bytes|..])
          && var ring := old(bufVec[0].buf).value.ring;
             ring.Abs() == if drained.Some? then Return(old(bufVec[0].buf.value.ring.Abs()), ring.k, drained.value)
                           else old(bufVec[0].buf.value.ring.Abs())
    {
      hide Return, RingOf, NextBytes;
      if bufVec == [] { return Ok(0); }
      var v := bufVec[0];
      if v.claimed == v.buf.value.kb.dataLen { return Panic(DrainedBufferQueued); }
      var bytes := v.Read(mem, out);
      if bytes.value == 0 { return Panic(NothingClaimed); }
      if v.claimed == v.buf.value.kb.dataLen {
        bufVec := bufVec[1..];
        var dropped := v.Drop();
      }
      r := bytes;
    }
  }
}
