/** The 64-bit tag carried by every submission and completion: event in bits 56-63, owner in
    bits 40-55, request number in bits 0-31. */
module UserData {
  import opened Bits

  datatype Event = Send | MultishotRecv

  datatype Decoded = Known(event: Event) | Unknown

  const SEND: nat := 0
  const MULTISHOT_RECV: nat := 1

  function EventFromU8(v: nat): Decoded {
    if v == SEND then Known(Send) else if v == MULTISHOT_RECV then Known(MultishotRecv) else Unknown
  }

  /** The packed word: three fields, and eight reserved bits left zero. */
  function Pack(event: nat, owner: nat, req: nat): (data: nat)
    requires event < U8 && owner < U16 && req < U32
    ensures data == Word(event, owner, 0, req) < U64
  {
    PackIsWord(event, owner, req);
    Or(Or(Or(0, Shl(event, 56)), Shl(owner, 40)), req)
  }

  /** A word from its four fields, high to low. */
  function Word(event: nat, owner: nat, reserved: nat, req: nat): nat {
    event * 0x100_0000_0000_0000 + owner * 0x100_0000_0000 + reserved * 0x1_0000_0000 + req
  }

  function EventOf(data: nat): nat { Shr(data, 56) % 0x100 }

  function OwnerOf(data: nat): nat { Mask(Shr(data, 40), 16) % 0x1_0000 }

  function ReqOf(data: nat): nat { Mask(data, 32) % 0x1_0000_0000 }

  function ReservedOf(data: nat): nat { Mask(Shr(data, 32), 8) }

  /** The word is built by three successive or-assignments. */
  method FromParts(event: nat, owner: nat, req: nat) returns (data: nat)
    requires event < U8 && owner < U16 && req < U32
    ensures data == Pack(event, owner, req)
    ensures EventOf(data) == event && OwnerOf(data) == owner && ReqOf(data) == req
  {
    data := 0;
    data := Or(data, Shl(event, 56));
    data := Or(data, Shl(owner, 40));
    data := Or(data, req);
    RoundTrip(event, owner, req);
  }

  lemma {:induction false} PackIsWord(event: nat, owner: nat, req: nat)
    requires event < U8 && owner < U16 && req < U32
    ensures Or(Or(Or(0, Shl(event, 56)), Shl(owner, 40)), req) == Word(event, owner, 0, req)
  {
    hide Pow2, Mod, Shl;
    Shifts(event);
    Shifts(owner);
    OrFields(event, Shl(owner, 40), 56);
    var hi := event * 0x1_0000 + owner;
    Shifts(hi);
    OrFields(hi, req, 40);
  }

  lemma Shifts(a: nat)
    ensures Shl(a, 40) == a * 0x100_0000_0000 && Shl(a, 56) == a * 0x100_0000_0000_0000
  {
    Widths();
  }

  lemma OrFields(hi: nat, lo: nat, k: nat)
    requires (k == 40 && lo < 0x100_0000_0000) || (k == 56 && lo < 0x100_0000_0000_0000)
    ensures Or(Shl(hi, k), lo) == Shl(hi, k) + lo
  {
    Widths();
    OrDisjoint(hi, lo, k);
  }

  // ---------- Each field by constant division ----------

  lemma {:induction false} EventByDivision(data: nat)
    ensures EventOf(data) == data / 0x100_0000_0000_0000 % 0x100
  {
    Widths();
  }

  lemma MaskBy(x: nat, k: nat, n: nat)
    requires n > 0 && ((k == 8 && n == U8) || (k == 16 && n == U16) || (k == 32 && n == U32))
    ensures Mask(x, k) == x % n
  {
    Widths();
    MaskIsRemainder(x, k);
  }

  lemma {:induction false} OwnerByDivision(data: nat)
    ensures OwnerOf(data) == data / 0x100_0000_0000 % 0x1_0000
  {
    Widths();
    MaskBy(Shr(data, 40), 16, U16);
  }

  lemma {:induction false} ReqByDivision(data: nat)
    ensures ReqOf(data) == data % 0x1_0000_0000
  {
    MaskBy(data, 32, U32);
  }

  lemma {:induction false} ReservedByDivision(data: nat)
    ensures ReservedOf(data) == data / 0x1_0000_0000 % 0x100
  {
    Widths();
    MaskBy(Shr(data, 32), 8, U8);
  }

  lemma QuotientOfWord(hi: nat, lo: nat)
    requires lo < 0x100_0000_0000
    ensures (hi * 0x100_0000_0000 + lo) / 0x100_0000_0000 == hi
  {
  }

  lemma EventOfWord(event: nat, owner: nat, req: nat)
    requires event < U8 && owner < U16 && req < U32
    ensures Word(event, owner, 0, req) / 0x100_0000_0000_0000 % 0x100 == event
  {
  }

  lemma OwnerOfWord(event: nat, owner: nat, req: nat)
    requires event < U8 && owner < U16 && req < U32
    ensures Word(event, owner, 0, req) / 0x100_0000_0000 % 0x1_0000 == owner
  {
    QuotientOfWord(event * 0x1_0000 + owner, req);
    assert Word(event, owner, 0, req) == (event * 0x1_0000 + owner) * 0x100_0000_0000 + req;
  }

  lemma ReqOfWord(event: nat, owner: nat, req: nat)
    requires event < U8 && owner < U16 && req < U32
    ensures Word(event, owner, 0, req) % 0x1_0000_0000 == req
  {
    assert Word(event, owner, 0, req) == (event * 0x100_0000 + owner * 0x100) * 0x1_0000_0000 + req;
  }

  /** Unpacking after packing returns all three parts. */
  lemma {:induction false} RoundTrip(event: nat, owner: nat, req: nat)
    requires event < U8 && owner < U16 && req < U32
    ensures EventOf(Pack(event, owner, req)) == event
    ensures OwnerOf(Pack(event, owner, req)) == owner
    ensures ReqOf(Pack(event, owner, req)) == req
  {
    var d := Word(event, owner, 0, req);
    EventByDivision(d);
    EventOfWord(event, owner, req);
    OwnerByDivision(d);
    OwnerOfWord(event, owner, req);
    ReqByDivision(d);
    ReqOfWord(event, owner, req);
  }

  /** Two tags are equal exactly when all their parts are: the pending map's keys never clash. */
  lemma {:induction false} PackInjective(e1: nat, o1: nat, r1: nat, e2: nat, o2: nat, r2: nat)
    requires e1 < U8 && o1 < U16 && r1 < U32 && e2 < U8 && o2 < U16 && r2 < U32
    ensures Pack(e1, o1, r1) == Pack(e2, o2, r2) <==> e1 == e2 && o1 == o2 && r1 == r2
  {
    RoundTrip(e1, o1, r1);
    RoundTrip(e2, o2, r2);
  }

  /** A 64-bit word is a packed tag exactly when its reserved bits 32-39 are zero, and then packing
      its parts gives the word back. */
  lemma {:induction false} PackedIffReservedZero(data: nat)
    requires data < U64
    ensures ReservedOf(data) == 0 <==> data == Pack(EventOf(data), OwnerOf(data), ReqOf(data))
  {
    WordOfFields(data);
  }

  lemma {:induction false} WordOfFields(data: nat)
    requires data < U64
    ensures data == Word(EventOf(data), OwnerOf(data), ReservedOf(data), ReqOf(data))
  {
    EventByDivision(data);
    OwnerByDivision(data);
    ReqByDivision(data);
    ReservedByDivision(data);
    SumOfFields(data, data / 0x1_0000_0000);
  }

  lemma SumOfFields(data: nat, a: nat)
    requires data < U64 && a == data / 0x1_0000_0000
    ensures data == Word(
      data / 0x100_0000_0000_0000 % 0x100, data / 0x100_0000_0000 % 0x1_0000, a % 0x100, data % 0x1_0000_0000)
  {
    var b := a / 0x100;
    var c := b / 0x1_0000;
    assert b == data / 0x100_0000_0000;
    assert c == data / 0x100_0000_0000_0000 < U8;
    assert data == a * 0x1_0000_0000 + data % 0x1_0000_0000;
    assert a == b * 0x100 + a % 0x100 && b == c * 0x1_0000 + b % 0x1_0000;
  }
}
