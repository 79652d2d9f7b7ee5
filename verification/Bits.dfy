/** Machine arithmetic: fixed-width words as naturals, bitwise operators, masks and remainders.

    The program works on u8, u16, u32 and u64 values. Here a word is a natural number below a
    power of two, wrap-around is written out as `%`, and `&`, `|`, `<<` and `>>` are defined digit
    by digit. */
module Bits {

  const U8: nat := 0x100
  const U16: nat := 0x1_0000
  const U32: nat := 0x1_0000_0000
  const U64: nat := 0x1_0000_0000_0000_0000

  type byte = x: int | 0 <= x < 0x100

  function Pow2(k: nat): (p: nat)
    ensures p >= 1
  {
    if k == 0 then 1 else 2 * Pow2(k - 1)
  }

  /** Bitwise and. */
  function And(a: nat, b: nat): nat
    decreases a
  {
    if a == 0 || b == 0 then 0
    else 2 * And(a / 2, b / 2) + (if a % 2 == 1 && b % 2 == 1 then 1 else 0)
  }

  /** Bitwise or. */
  function Or(a: nat, b: nat): nat
    decreases a + b
  {
    if a == 0 then b else if b == 0 then a
    else 2 * Or(a / 2, b / 2) + (if a % 2 == 1 || b % 2 == 1 then 1 else 0)
  }

  function Shl(a: nat, k: nat): nat { a * Pow2(k) }

  function Shr(a: nat, k: nat): nat {
    DivNonNegative(a, Pow2(k));
    a / Pow2(k)
  }

  lemma DivNonNegative(a: nat, m: nat)
    requires m > 0
    ensures a / m >= 0
  {
  }

  /** The remainder of x by n, by repeated subtraction; see ModIsRemainder. */
  function Mod(x: nat, n: nat): (r: nat)
    requires n > 0
    ensures r < n
  {
    if x < n then x else Mod(x - n, n)
  }

  /** `x & (2^k - 1)`: how every ring of the program turns a running index into a slot. */
  function Mask(x: nat, k: nat): (r: nat)
    ensures r == Mod(x, Pow2(k))
  {
    AndMask(x, k);
    And(x, Pow2(k) - 1)
  }

  // ---------- Masks and single bits ----------

  lemma {:induction false} ModDouble(x: nat, m: nat)
    requires m > 0
    ensures Mod(x, 2 * m) == 2 * Mod(x / 2, m) + x % 2
    decreases x
  {
    if x >= 2 * m {
      ModDouble(x - 2 * m, m);
      assert (x - 2 * m) / 2 == x / 2 - m && (x - 2 * m) % 2 == x % 2;
    }
  }

  lemma {:induction false} AndMask(x: nat, k: nat)
    ensures And(x, Pow2(k) - 1) == Mod(x, Pow2(k))
    decreases k
  {
    var m := Pow2(k) - 1;
    if k == 0 {
      ModOne(x);
    } else if x > 0 {
      AndMask(x / 2, k - 1);
      ModDouble(x, Pow2(k - 1));
      assert m / 2 == Pow2(k - 1) - 1 && m % 2 == 1;
      assert And(x, m) == 2 * And(x / 2, m / 2) + x % 2;
    }
  }

  lemma ModOne(x: nat)
    ensures Mod(x, 1) == 0
  {
  }

  lemma AndZero(b: nat)
    ensures And(0, b) == 0
  {
  }

  lemma OrZero(b: nat)
    ensures Or(0, b) == b
  {
  }

  /** Whether bit k of x is set. */
  predicate Bit(x: nat, k: nat) { if k == 0 then x % 2 == 1 else Bit(x / 2, k - 1) }

  /** `x & 2^k` tests bit k. */
  lemma {:induction false} AndBit(x: nat, k: nat)
    ensures And(x, Pow2(k)) != 0 <==> Bit(x, k)
    decreases k
  {
    if x == 0 {
      ZeroBit(k);
    } else if k > 0 {
      AndBit(x / 2, k - 1);
      assert Pow2(k) / 2 == Pow2(k - 1) && Pow2(k) % 2 == 0;
    } else {
      assert And(x / 2, 0) == 0;
    }
  }

  /** `&` and `|`, bit by bit. */
  lemma {:induction false} BitsOfAndOr(a: nat, b: nat, k: nat)
    ensures Bit(And(a, b), k) <==> Bit(a, k) && Bit(b, k)
    ensures Bit(Or(a, b), k) <==> Bit(a, k) || Bit(b, k)
    decreases k
  {
    hide And, Or;
    Halves(a, b);
    if k > 0 { BitsOfAndOr(a / 2, b / 2, k - 1); }
  }

  lemma Halves(a: nat, b: nat)
    ensures And(a, b) / 2 == And(a / 2, b / 2) && (And(a, b) % 2 == 1 <==> a % 2 == 1 && b % 2 == 1)
    ensures Or(a, b) / 2 == Or(a / 2, b / 2) && (Or(a, b) % 2 == 1 <==> a % 2 == 1 || b % 2 == 1)
  {
  }

  lemma {:induction false} ZeroBit(k: nat)
    ensures !Bit(0, k)
  {
    if k > 0 { ZeroBit(k - 1); }
  }

  /** Or-ing a low part into the zeroed low bits of a word adds it. */
  lemma {:induction false} OrDisjoint(hi: nat, lo: nat, k: nat)
    requires lo < Pow2(k)
    ensures Or(Shl(hi, k), lo) == Shl(hi, k) + lo
    decreases k
  {
    if k > 0 {
      OrDisjoint(hi, lo / 2, k - 1);
      ShlDouble(hi, k);
    }
  }

  lemma ShlDouble(a: nat, k: nat)
    requires k > 0
    ensures Shl(a, k) == 2 * Shl(a, k - 1)
  {
  }

  /** A mask of k ones takes the remainder by 2^k. */
  lemma {:induction false} MaskIsRemainder(x: nat, k: nat)
    ensures Mask(x, k) == x % Pow2(k)
  {
    ModIsRemainder(x, Pow2(k));
  }

  lemma {:induction false} Pow2Bound(k: nat, w: nat)
    requires k <= w
    ensures Pow2(k) <= Pow2(w)
    decreases w
  {
    if k < w { Pow2Bound(k, w - 1); }
  }

  // ---------- Remainders ----------

  lemma {:induction false} ModIsRemainder(x: nat, n: nat)
    requires n > 0
    ensures Mod(x, n) == x % n
    decreases x
  {
    if x >= n {
      ModIsRemainder(x - n, n);
      var q, r := (x - n) / n, (x - n) % n;
      assert x - n == q * n + r;
      RemainderUnique(x, n, q + 1, r);
    } else {
      RemainderUnique(x, n, 0, x);
    }
  }

  lemma {:induction false} RemainderUnique(x: nat, n: nat, q: nat, r: nat)
    requires n > 0 && r < n && x == q * n + r
    ensures x % n == r
  {
    var d := x / n - q;
    assert x == (x / n) * n + x % n;
    assert d * n == r - x % n;
    MulSign(d, n);
  }

  lemma MulSign(d: int, m: nat)
    ensures d >= 1 ==> d * m >= m
    ensures d <= -1 ==> d * m <= -(m as int)
  {
  }

  /** Equal remainders stay equal when the same amount is added. */
  lemma {:induction false} ModShift(a: nat, c: nat, n: nat)
    requires n > 0
    ensures Mod(Mod(a, n) + c, n) == Mod(a + c, n)
    decreases a
  {
    if a >= n { ModShift(a - n, c, n); }
  }

  /** Fewer than n consecutive numbers have distinct remainders. */
  lemma {:induction false} ModDistinct(a: nat, b: nat, n: nat)
    requires n > 0 && a < b < a + n
    ensures Mod(a, n) != Mod(b, n)
    decreases a
  {
    if a >= n { ModDistinct(a - n, b - n, n); }
  }

  /** The number in [first, first + n) with remainder c. */
  lemma {:induction false} Representative(first: nat, c: nat, n: nat) returns (t: nat)
    requires c < n
    ensures first <= t < first + n && Mod(t, n) == c
    decreases first
  {
    if first >= n {
      var u := Representative(first - n, c, n);
      t := u + n;
    } else {
      t := if c >= first then c else c + n;
    }
  }

  // ---------- Wrapped counters ----------

  lemma {:induction false} PowersDivide(k: nat, w: nat)
    requires k <= w
    ensures Mod(Pow2(w), Pow2(k)) == 0
    decreases w
  {
    if k < w {
      PowersDivide(k, w - 1);
      ModShift(Pow2(w - 1), Pow2(w - 1), Pow2(k));
    }
  }

  /** Wrapping at a multiple of n does not disturb the remainder by n. */
  lemma {:induction false} WrapMod(x: nat, w: nat, n: nat)
    requires n > 0 && w > 0 && Mod(w, n) == 0
    ensures Mod(Mod(x, w), n) == Mod(x, n)
    decreases x
  {
    if x >= w {
      WrapMod(x - w, w, n);
      ModShift(w, x - w, n);
    }
  }

  lemma Widths()
    ensures Pow2(8) == U8 && Pow2(15) == 0x8000 && Pow2(16) == U16 && Pow2(32) == U32
    ensures Pow2(40) == 0x100_0000_0000 && Pow2(56) == 0x100_0000_0000_0000 && Pow2(64) == U64
  {
    assert Pow2(7) == 0x80;
    Pow2Plus8(0); Pow2Plus8(7); Pow2Plus8(8); Pow2Plus8(16); Pow2Plus8(24);
    Pow2Plus8(32); Pow2Plus8(40); Pow2Plus8(48); Pow2Plus8(56);
  }

  lemma Pow2Plus8(k: nat)
    ensures Pow2(k + 8) == 0x100 * Pow2(k)
  {
    assert Pow2(k + 4) == 0x10 * Pow2(k) by { assert Pow2(k + 2) == 4 * Pow2(k); }
    assert Pow2(k + 6) == 4 * Pow2(k + 4);
  }

  lemma {:induction false} WrapMod16(count: nat, k: nat)
    requires k <= 16
    ensures Mod(count % 0x1_0000, Pow2(k)) == Mod(count, Pow2(k))
  {
    Widths();
    PowersDivide(k, 16);
    WrapMod(count, U16, Pow2(k));
    ModIsRemainder(count, U16);
  }

  lemma {:induction false} WrapMod32(count: nat, k: nat)
    requires k <= 32
    ensures Mod(count % 0x1_0000_0000, Pow2(k)) == Mod(count, Pow2(k))
  {
    Widths();
    PowersDivide(k, 32);
    WrapMod(count, U32, Pow2(k));
    ModIsRemainder(count, U32);
  }

  /** A wrapped 16-bit index and its unbounded counter select the same slot. */
  lemma {:induction false} WrapIndex16(count: nat, offset: nat, k: nat)
    requires k <= 16
    ensures Mod(count % 0x1_0000 + offset, Pow2(k)) == Mod(count + offset, Pow2(k))
  {
    WrapMod16(count, k);
    ModShift(count % 0x1_0000, offset, Pow2(k));
    ModShift(count, offset, Pow2(k));
  }

  lemma {:induction false} WrapIndex32(count: nat, offset: nat, k: nat)
    requires k <= 32
    ensures Mod(count % 0x1_0000_0000 + offset, Pow2(k)) == Mod(count + offset, Pow2(k))
  {
    WrapMod32(count, k);
    ModShift(count % 0x1_0000_0000, offset, Pow2(k));
    ModShift(count, offset, Pow2(k));
  }

  /** The distance between two wrapped counters is the distance between the counters. */
  lemma WrapDistance16(head: nat, tail: nat)
    requires head <= tail < head + U16
    ensures (tail % 0x1_0000 - head % 0x1_0000) % 0x1_0000 == tail - head
  {
  }

  lemma WrapEqual16(head: nat, tail: nat)
    requires head <= tail < head + U16
    ensures tail % 0x1_0000 == head % 0x1_0000 <==> tail == head
  {
    WrapDistance16(head, tail);
  }

  lemma RingFits(k: nat)
    requires k <= 15
    ensures Pow2(k) <= 0x8000
  {
    Widths();
    Pow2Bound(k, 15);
  }

  lemma WrapAdd16(x: nat, c: nat)
    ensures (x % 0x1_0000 + c) % 0x1_0000 == (x + c) % 0x1_0000
  {
  }

  lemma WrapAdd32(x: nat, c: nat)
    ensures (x % 0x1_0000_0000 + c) % 0x1_0000_0000 == (x + c) % 0x1_0000_0000
  {
  }
}
