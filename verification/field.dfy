/** The field product as polynomial arithmetic: multiply without carries, reduce modulo 0x11D. */
module FieldProduct {
  import opened Gf

  function Xor16(a: bv16, b: bv16): bv16 {
    a ^ b
  }

  /** The product of two polynomials over GF(2), coefficient i in bit i. */
  function Carryless(a: bv16, b: bv16): bv16
    decreases a
  {
    if a == 0 then 0 else Xor16(if a & 1 == 1 then b else 0, Carryless(Half(a), Twice(b)))
  }

  lemma {:induction false} Xor16Laws(a: bv16, b: bv16, c: bv16, d: bv16)
    ensures Xor16(Xor16(a, b), Xor16(c, d)) == Xor16(Xor16(a, c), Xor16(b, d))
    ensures Xor16(a, 0) == a && Xor16(0, a) == a && Xor16(a, a) == 0
  {
  }

  function Twice(a: bv16): bv16 {
    a << 1
  }

  function Half(a: bv16): bv16 {
    a >> 1
  }

  lemma {:induction false} TwiceXor(a: bv16, b: bv16)
    ensures Twice(a ^ b) == Twice(a) ^ Twice(b)
  {
  }

  lemma {:induction false} HalfXor(a: bv16, b: bv16)
    ensures Half(a ^ b) == Half(a) ^ Half(b)
  {
  }

  lemma {:induction false} ShiftXor(a: bv16, b: bv16)
    ensures Twice(Xor16(a, b)) == Xor16(Twice(a), Twice(b))
    ensures Half(Xor16(a, b)) == Xor16(Half(a), Half(b))
  {
    hide Twice, Half;
    TwiceXor(a, b);
    HalfXor(a, b);
  }

  lemma {:induction false} CarrylessRight(a: bv16, b: bv16, c: bv16)
    ensures Carryless(a, Xor16(b, c)) == Xor16(Carryless(a, b), Carryless(a, c))
    decreases a
  {
    hide Xor16, Twice;
    if a == 0 {
      Xor16Laws(0, 0, 0, 0);
    } else {
      ShiftXor(b, c);
      CarrylessRight(Half(a), Twice(b), Twice(c));
      Xor16Laws(if a & 1 == 1 then b else 0, if a & 1 == 1 then c else 0,
                Carryless(Half(a), Twice(b)), Carryless(Half(a), Twice(c)));
      Xor16Laws(0, 0, 0, 0);
    }
  }

  lemma {:induction false} CarrylessZero(b: bv16)
    ensures Carryless(0, b) == 0
  {
  }

  lemma {:induction false} Unfold(a: bv16, b: bv16)
    ensures Carryless(a, b) == Xor16(if a & 1 == 1 then b else 0, Carryless(Half(a), Twice(b)))
    decreases a
  {
    if a == 0 { assert Half(a) == 0; }
  }

  lemma {:induction false} Bits(a: bv16, b: bv16)
    ensures (Xor16(a, b) & 1 == 1) <==> ((a & 1 == 1) != (b & 1 == 1))
  {
  }

  lemma {:induction false} Halves(a: bv16)
    ensures a != 0 ==> Half(a) < a
    ensures a == 0 ==> Half(a) == 0
  {
  }

  lemma {:induction false} CarrylessLeft(a: bv16, b: bv16, c: bv16)
    ensures Carryless(Xor16(a, b), c) == Xor16(Carryless(a, c), Carryless(b, c))
    decreases a, b
  {
    hide Xor16, Carryless, Twice, Half;
    if a == 0 && b == 0 {
      CarrylessZero(c);
      Xor16Laws(0, 0, 0, 0);
    } else {
      Halves(a);
      Halves(b);
      Unfold(a, c);
      Unfold(b, c);
      Unfold(Xor16(a, b), c);
      ShiftXor(a, b);
      Bits(a, b);
      CarrylessLeft(Half(a), Half(b), Twice(c));
      var x, y: bv16 := if a & 1 == 1 then c else 0, if b & 1 == 1 then c else 0;
      Xor16Laws(x, Carryless(Half(a), Twice(c)), y, Carryless(Half(b), Twice(c)));
      Xor16Laws(c, 0, 0, 0);
    }
  }

  function Wide(a: bv8): bv16 {
    a as bv16
  }

  lemma {:induction false} WideXtime(b: bv8)
    ensures Twice(Wide(b)) == Xor16(Wide(Xtime(b)), if b & 0x80 != 0 then 0x11D else 0)
  {
  }

  lemma {:induction false} WideBits(a: bv8, b: bv8)
    ensures Half(Wide(a)) == Wide(a >> 1) && (Wide(a) & 1 == 1 <==> a & 1 != 0)
    ensures Wide(Add(a, b)) == Xor16(Wide(a), Wide(b)) && Wide(0) == 0
  {
  }

  /** The product in the field is the polynomial product modulo x^8 + x^4 + x^3 + x^2 + 1: the two differ by a multiple
      of 0x11D, and the field product has degree below 8. */
  lemma {:induction false} MulReduces(a: bv8, b: bv8) returns (q: bv16)
    ensures q < 0x80
    ensures Carryless(Wide(a), Wide(b)) == Xor16(Carryless(q, 0x11D), Wide(Mul(a, b)))
    decreases a
  {
    hide Xor16, Carryless, Xtime, Add, Wide, Twice, Half;
    WideBits(a, b);
    assert a >> 1 < 0x80 by { TopClear(a); }
    if a == 0 {
      q := 0;
      CarrylessZero(Wide(b));
      CarrylessZero(0x11D);
      Xor16Laws(0, 0, 0, 0);
    } else {
      var half, t: bv16 := Wide(a >> 1), if b & 0x80 != 0 then 0x11D else 0;
      var rest := MulReduces(a >> 1, Xtime(b));
      q := Xor16(rest, if b & 0x80 != 0 then half else 0);
      SmallQuotient(rest, a >> 1, if b & 0x80 != 0 then half else 0);
      var low, m := LowBit(a, b), Mul(a >> 1, Xtime(b));
      Unfold(Wide(a), Wide(b));
      WideXtime(b);
      CarrylessRight(half, Wide(Xtime(b)), t);
      CarrylessLeft(rest, if b & 0x80 != 0 then half else 0, 0x11D);
      CarrylessZero(0x11D);
      ZeroRight(half);
      WideBits(low, m);
      Xor16Laws(Wide(low), 0, Wide(m), 0);
      Regroup(Wide(low), Carryless(rest, 0x11D), Wide(m), if b & 0x80 != 0 then Carryless(half, 0x11D) else 0);
    }
  }

  lemma {:induction false} TopClear(a: bv8)
    ensures a >> 1 < 0x80
  {
  }

  lemma {:induction false} SmallQuotient(rest: bv16, half: bv8, added: bv16)
    requires rest < 0x80 && half < 0x80 && (added == 0 || added == Wide(half))
    ensures Xor16(rest, added) < 0x80
  {
  }

  lemma {:induction false} ZeroRight(a: bv16)
    ensures Carryless(a, 0) == 0
    decreases a
  {
    if a != 0 {
      Halves(a);
      ZeroRight(Half(a));
      assert Twice(0) == 0;
    }
  }

  /** l + ((q + m) + h) == (q + h) + (l + m) */
  lemma {:induction false} Regroup(l: bv16, q: bv16, m: bv16, h: bv16)
    ensures Xor16(l, Xor16(Xor16(q, m), h)) == Xor16(Xor16(q, h), Xor16(l, m))
  {
  }
}
