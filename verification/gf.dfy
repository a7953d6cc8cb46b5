/** GF(2^8) with the primitive polynomial x^8 + x^4 + x^3 + x^2 + 1 (0x11D). */
module Gf {

  /** Multiplication by x, reduced modulo 0x11D. */
  function Xtime(a: bv8): bv8 {
    if a & 0x80 != 0 then (a << 1) ^ 0x1D else a << 1
  }

  /** `Xtime` applied n times. */
  function Iter(n: nat, a: bv8): bv8 {
    if n == 0 then a else Xtime(Iter(n - 1, a))
  }

  /** The n-th power of the generator x. */
  function Exp(n: nat): bv8 {
    Iter(n, 1)
  }

  function Add(a: bv8, b: bv8): bv8 {
    a ^ b
  }

  /** b when the low bit of a is set, else zero. */
  function LowBit(a: bv8, b: bv8): bv8 {
    if a & 1 != 0 then b else 0
  }

  /** The field product, by shift and add: the reference the log/exp tables are measured against. */
  function Mul(a: bv8, b: bv8): bv8
    decreases a
  {
    if a == 0 then 0 else Add(LowBit(a, b), Mul(a >> 1, Xtime(b)))
  }

  // ----- iteration

  lemma {:induction false} IterAdd(m: nat, n: nat, a: bv8)
    ensures Iter(m + n, a) == Iter(m, Iter(n, a))
  {
    if m > 0 { IterAdd(m - 1, n, a); }
  }

  lemma {:induction false} IterZero(n: nat, a: bv8)
    ensures Iter(n, a) == 0 <==> a == 0
  {
    if n > 0 { IterZero(n - 1, a); }
  }

  lemma {:induction false} IterMultiple(q: nat, p: nat, a: bv8)
    requires Iter(p, a) == a
    ensures Iter(q * p, a) == a
  {
    if q > 0 {
      IterMultiple(q - 1, p, a);
      assert q * p == (q - 1) * p + p;
      IterAdd((q - 1) * p, p, a);
    }
  }

  lemma {:induction false} IterInjective(n: nat, a: bv8, b: bv8)
    requires Iter(n, a) == Iter(n, b)
    ensures a == b
  {
    if n > 0 {
      assert forall p: bv8, q: bv8 {:trigger Xtime(p), Xtime(q)} :: Xtime(p) == Xtime(q) ==> p == q;
      IterInjective(n - 1, a, b);
    }
  }

  // ----- x is a generator

  /** The powers of x at the divisors of 255, by fifteen steps at a time. */
  lemma {:induction false} Landmarks()
    ensures Exp(15) == 0x26 && Exp(51) == 0x0A && Exp(85) == 0xD6 && Exp(255) == 1
  {
    assert Iter(15, 0x01) == 0x26;
    assert Iter(15, 0x26) == 0x60;
    IterAdd(15, 15, 1);
    assert Iter(15, 0x60) == 0xC1;
    IterAdd(15, 30, 1);
    assert Iter(15, 0xC1) == 0xB9;
    IterAdd(15, 45, 1);
    assert Iter(15, 0xB9) == 0x0F;
    IterAdd(15, 60, 1);
    assert Iter(15, 0x0F) == 0xDF;
    IterAdd(15, 75, 1);
    assert Iter(15, 0xDF) == 0x1A;
    IterAdd(15, 90, 1);
    assert Iter(15, 0x1A) == 0x3B;
    IterAdd(15, 105, 1);
    assert Iter(15, 0x3B) == 0xA9;
    IterAdd(15, 120, 1);
    assert Iter(15, 0xA9) == 0x55;
    IterAdd(15, 135, 1);
    assert Iter(15, 0x55) == 0x91;
    IterAdd(15, 150, 1);
    assert Iter(15, 0x91) == 0x96;
    IterAdd(15, 165, 1);
    assert Iter(15, 0x96) == 0x64;
    IterAdd(15, 180, 1);
    assert Iter(15, 0x64) == 0x59;
    IterAdd(15, 195, 1);
    assert Iter(15, 0x59) == 0x24;
    IterAdd(15, 210, 1);
    assert Iter(15, 0x24) == 0x2C;
    IterAdd(15, 225, 1);
    assert Iter(15, 0x2C) == 0x01;
    IterAdd(15, 240, 1);
    IterAdd(6, 45, 1);
    IterAdd(10, 75, 1);
  }

  lemma {:induction false} LeastPeriod(n: nat) returns (p: nat)
    requires 0 < n && Exp(n) == 1
    ensures 0 < p <= n && Exp(p) == 1
    ensures forall q: nat :: 0 < q < p ==> Exp(q) != 1
  {
    if q: nat :| 0 < q < n && Exp(q) == 1 {
      p := LeastPeriod(q);
    } else {
      p := n;
    }
  }

  lemma {:induction false} DivisorsOf255(p: nat, g: nat)
    requires 255 == p * g && 1 < p
    ensures exists q: nat :: 85 == q * g || 51 == q * g || 15 == q * g
  {
    if p % 3 == 0 {
      assert 85 == (p / 3) * g;
    } else if p % 5 == 0 {
      assert 51 == (p / 5) * g;
    } else {
      assert 15 == (p / 17) * g;
    }
  }

  lemma {:induction false} OrderIs255(n: nat)
    requires 0 < n < 255
    ensures Exp(n) != 1
  {
    hide Iter;
    if Exp(n) == 1 {
      Landmarks();
      var p := LeastPeriod(n);
      IterMultiple(255 / p, p, 1);
      IterAdd(255 % p, 255 / p * p, 1);
      assert 255 % p + 255 / p * p == 255;
      assert Exp(255 % p) == 1;
      DivisorsOf255(255 / p, p);
      var q: nat :| 85 == q * p || 51 == q * p || 15 == q * p;
      IterMultiple(q, p, 1);
    }
  }

  lemma {:induction false} ExpInjective(i: nat, j: nat)
    requires i < j < 255
    ensures Exp(i) != Exp(j)
  {
    IterAdd(i, j - i, 1);
    if Exp(i) == Exp(j) {
      IterInjective(i, 1, Exp(j - i));
      OrderIs255(j - i);
    }
  }

  ghost function Powers(n: nat): set<bv8> {
    if n == 0 then {} else Powers(n - 1) + {Exp(n - 1)}
  }

  ghost function Nonzero(n: nat): set<bv8>
    requires n < 256
  {
    if n == 0 then {} else Nonzero(n - 1) + {n as bv8}
  }

  lemma {:induction false} NonzeroMembers(n: nat, a: bv8)
    requires n < 256
    ensures |Nonzero(n)| <= n
    ensures 1 <= a as int <= n ==> a in Nonzero(n)
  {
    if n > 0 {
      NonzeroMembers(n - 1, a);
      assert a as int == n ==> a == n as bv8;
    }
  }

  lemma {:induction false} PowersMember(n: nat, a: bv8)
    requires a in Powers(n)
    ensures a != 0 && exists i: nat :: i < n && Exp(i) == a
  {
    if a == Exp(n - 1) {
      IterZero(n - 1, 1);
    } else {
      PowersMember(n - 1, a);
    }
  }

  lemma {:induction false} PowersSize(n: nat)
    requires n <= 255
    ensures |Powers(n)| == n
  {
    if n > 0 {
      PowersSize(n - 1);
      if Exp(n - 1) in Powers(n - 1) {
        PowersMember(n - 1, Exp(n - 1));
        var i: nat :| i < n - 1 && Exp(i) == Exp(n - 1);
        ExpInjective(i, n - 1);
      }
    }
  }

  /** Every nonzero element is a power of x: n = 255 distinct powers leave none out. */
  lemma {:induction false} PowersCover(n: nat, a: bv8)
    requires n == 255 && a != 0
    ensures a in Powers(n)
  {
    PowersSize(n);
    forall b | b in Powers(n) ensures b in Nonzero(n) {
      PowersMember(n, b);
      NonzeroMembers(n, b);
    }
    NonzeroMembers(n, a);
    assert |Nonzero(n) - Powers(n)| == |Nonzero(n)| - |Powers(n)|;
  }

  lemma {:induction false} ExpSurjective(a: bv8)
    requires a != 0
    ensures exists i: nat :: i < 255 && Exp(i) == a
  {
    var n := 255;
    PowersCover(n, a);
    PowersMember(n, a);
  }

  function LogFrom(a: bv8, i: nat): (r: nat)
    requires i < 255
    requires exists j: nat :: i <= j < 255 && Exp(j) == a
    ensures r < 255 && Exp(r) == a
    decreases 255 - i
  {
    if Exp(i) == a then i else LogFrom(a, i + 1)
  }

  /** Discrete logarithm to the base x. */
  function Log(a: bv8): (r: nat)
    requires a != 0
    ensures r < 255 && Exp(r) == a
  {
    ExpSurjective(a);
    LogFrom(a, 0)
  }

  lemma {:induction false} LogExp(i: nat)
    requires i < 255
    ensures Exp(i) != 0 && Log(Exp(i)) == i
  {
    IterZero(i, 1);
    var j := Log(Exp(i));
    if i < j { ExpInjective(i, j); } else if j < i { ExpInjective(j, i); }
  }

  lemma {:induction false} ExpPeriodic(i: nat)
    ensures Exp(i + 255) == Exp(i)
  {
    Landmarks();
    IterAdd(i, 255, 1);
  }

  // ----- the product

  /** One step of `Mul`, valid for zero as well. */
  lemma {:induction false} MulStep(a: bv8, b: bv8)
    ensures Mul(a, b) == Add(LowBit(a, b), Mul(a >> 1, Xtime(b)))
  {
  }

  lemma {:induction false} MulFromZero(b: bv8)
    ensures Mul(0, b) == 0 && Xtime(0) == 0
  {
  }

  lemma {:induction false} LowBitOf(a: bv8, b: bv8, c: bv8)
    ensures LowBit(a, Add(b, c)) == Add(LowBit(a, b), LowBit(a, c))
    ensures LowBit(a, Xtime(b)) == Xtime(LowBit(a, b))
  {
  }

  lemma {:induction false} AddLaws(a: bv8, b: bv8, c: bv8)
    ensures Add(a, b) == Add(b, a)
    ensures Add(Add(a, b), c) == Add(a, Add(b, c))
    ensures Add(a, 0) == a && Add(a, a) == 0
  {
  }

  lemma {:induction false} AddExchange(p: bv8, q: bv8, r: bv8, s: bv8)
    ensures Add(Add(p, q), Add(r, s)) == Add(Add(p, r), Add(q, s))
  {
    hide *;
    AddLaws(p, q, Add(r, s)); AddLaws(q, r, s); AddLaws(r, q, s); AddLaws(p, r, Add(q, s));
  }

  lemma {:induction false} XtimeAdd(a: bv8, b: bv8)
    ensures Xtime(Add(a, b)) == Add(Xtime(a), Xtime(b))
  {
    assert (a ^ b) & 0x80 == (a & 0x80) ^ (b & 0x80);
    assert (a ^ b) << 1 == (a << 1) ^ (b << 1);
    if a & 0x80 != 0 {
      assert a & 0x80 == 0x80;
      if b & 0x80 != 0 {
        assert b & 0x80 == 0x80;
      }
    }
  }

  lemma {:induction false} LowBitAdd(a: bv8, b: bv8, c: bv8)
    ensures LowBit(Add(a, b), c) == Add(LowBit(a, c), LowBit(b, c))
    ensures Add(a, b) >> 1 == Add(a >> 1, b >> 1)
  {
    assert (a ^ b) & 1 == (a & 1) ^ (b & 1);
    assert (a ^ b) >> 1 == (a >> 1) ^ (b >> 1);
    if a & 1 != 0 {
      assert a & 1 == 1;
      if b & 1 != 0 {
        assert b & 1 == 1;
      }
    }
  }

  lemma {:induction false} MulAddLeft(a: bv8, b: bv8, c: bv8)
    ensures Mul(Add(a, b), c) == Add(Mul(a, c), Mul(b, c))
    decreases a
  {
    hide *;
    if a == 0 {
      MulFromZero(c);
      AddLaws(b, a, a); AddLaws(Mul(b, c), 0, 0);
    } else {
      var d := Xtime(c);
      MulStep(Add(a, b), c); MulStep(a, c); MulStep(b, c);
      LowBitAdd(a, b, c);
      MulAddLeft(a >> 1, b >> 1, d);
      AddExchange(LowBit(a, c), LowBit(b, c), Mul(a >> 1, d), Mul(b >> 1, d));
    }
  }

  lemma {:induction false} MulAddRight(a: bv8, b: bv8, c: bv8)
    ensures Mul(a, Add(b, c)) == Add(Mul(a, b), Mul(a, c))
    decreases a
  {
    hide *;
    if a == 0 {
      MulFromZero(b); MulFromZero(c); MulFromZero(Add(b, c));
      AddLaws(0, 0, 0);
    } else {
      MulStep(a, Add(b, c)); MulStep(a, b); MulStep(a, c);
      XtimeAdd(b, c);
      LowBitOf(a, b, c);
      MulAddRight(a >> 1, Xtime(b), Xtime(c));
      AddExchange(LowBit(a, b), LowBit(a, c), Mul(a >> 1, Xtime(b)), Mul(a >> 1, Xtime(c)));
    }
  }

  lemma {:induction false} MulXtime(a: bv8, b: bv8)
    ensures Mul(a, Xtime(b)) == Xtime(Mul(a, b))
    decreases a
  {
    hide *;
    if a == 0 {
      MulFromZero(b); MulFromZero(Xtime(b));
    } else {
      MulStep(a, b); MulStep(a, Xtime(b));
      LowBitOf(a, b, b);
      MulXtime(a >> 1, Xtime(b));
      XtimeAdd(LowBit(a, b), Mul(a >> 1, Xtime(b)));
    }
  }

  lemma {:induction false} MulIter(a: bv8, n: nat, b: bv8)
    ensures Mul(a, Iter(n, b)) == Iter(n, Mul(a, b))
  {
    if n > 0 {
      MulIter(a, n - 1, b);
      MulXtime(a, Iter(n - 1, b));
    }
  }

  lemma {:induction false} MulPower(a: bv8, p: bv8, q: bv8)
    requires p & 0x80 == 0 && Mul(a >> 1, p << 1) == q
    ensures Mul(a, p) == (if a & 1 != 0 then p else 0) ^ q
  {
    MulStep(a, p);
  }

  lemma {:induction false} MulByOne(a: bv8)
    ensures Mul(a, 1) == a
  {
    hide *;
    var b := a >> 7;
    assert Mul(b, 0x80) == b << 7 by { TopBit(b); }
    MulPower(a >> 6, 0x40, (a >> 7) << 7);
    MulPower(a >> 5, 0x20, (a >> 6) << 6);
    MulPower(a >> 4, 0x10, (a >> 5) << 5);
    MulPower(a >> 3, 0x08, (a >> 4) << 4);
    MulPower(a >> 2, 0x04, (a >> 3) << 3);
    MulPower(a >> 1, 0x02, (a >> 2) << 2);
    MulPower(a, 0x01, (a >> 1) << 1);
  }

  lemma {:induction false} TopBit(b: bv8)
    requires b <= 1
    ensures Mul(b, 0x80) == b << 7
  {
    MulStep(b, 0x80);
    MulFromZero(Xtime(0x80));
  }

  lemma {:induction false} MulOne(a: bv8)
    ensures Mul(a, 1) == a && Mul(1, a) == a
  {
    MulByOne(a);
    assert Mul(1, a) == a ^ Mul(0, Xtime(a));
  }

  lemma {:induction false} MulZero(a: bv8)
    ensures Mul(a, 0) == 0 && Mul(0, a) == 0
  {
    MulAddRight(a, 0, 0);
  }

  /** The discrete logarithm turns the product into a sum: what the lookup tables rely on. */
  lemma {:induction false} MulByLogs(a: bv8, b: bv8)
    requires a != 0 && b != 0
    ensures Mul(a, b) == Exp(Log(a) + Log(b)) && Mul(a, b) != 0
  {
    hide Mul, Iter, Log;
    MulIter(a, Log(b), 1);
    MulOne(a);
    IterAdd(Log(b), Log(a), 1);
    IterZero(Log(a) + Log(b), 1);
  }

  lemma {:induction false} MulCommutes(a: bv8, b: bv8)
    ensures Mul(a, b) == Mul(b, a)
  {
    MulZero(a);
    MulZero(b);
    if a != 0 && b != 0 {
      MulByLogs(a, b);
      MulByLogs(b, a);
    }
  }

  lemma {:induction false} MulAssociates(a: bv8, b: bv8, c: bv8)
    ensures Mul(a, Mul(b, c)) == Mul(Mul(a, b), c)
  {
    MulZero(a);
    MulZero(b);
    MulZero(Mul(a, b));
    if c != 0 {
      MulIter(b, Log(c), 1);
      MulIter(a, Log(c), b);
      MulIter(Mul(a, b), Log(c), 1);
      MulOne(b);
      MulOne(Mul(a, b));
    }
  }

  function Inv(a: bv8): bv8 {
    if a == 0 then 0 else Exp(255 - Log(a))
  }

  lemma {:induction false} MulInverse(a: bv8)
    requires a != 0
    ensures Inv(a) != 0 && Mul(a, Inv(a)) == 1 && Mul(Inv(a), a) == 1
  {
    hide Mul, Iter, Log;
    var n := 255 - Log(a);
    Landmarks();
    IterZero(n, 1);
    MulIter(a, n, 1);
    MulOne(a);
    IterAdd(n, Log(a), 1);
    MulCommutes(a, Inv(a));
  }

  // ----- the tables

  /** The table builder's 16-bit shift and conditional reduction steps to the next power. */
  lemma {:induction false} NextPower(i: nat)
    ensures var y := (Exp(i) as bv16) << 1;
            (if y & 0x100 != 0 then y ^ 0x11D else y) == Exp(i + 1) as bv16
  {
    WideXtime(Exp(i));
  }

  lemma {:induction false} FirstPower()
    ensures Exp(0) == 1
  {
  }

  lemma {:induction false} WideXtime(a: bv8)
    ensures var y := (a as bv16) << 1;
            (if y & 0x100 != 0 then y ^ 0x11D else y) == Xtime(a) as bv16
  {
  }

  /** The lookup tables: `exp` runs over two periods of the generator so that a
      sum of two logarithms needs no reduction. */
  class Tables {
    const exp: array<bv8>
    const log: array<nat>

    function LogAt(a: bv8): nat
      requires log.Length == 256
      reads log
    {
      log[a as int]
    }

    ghost predicate Valid()
      reads exp, log
    {
      && exp.Length == 512 && log.Length == 256
      && (forall i: nat :: i < 510 ==> exp[i] == Exp(i))
      && (forall a: bv8 :: a != 0 ==> LogAt(a) == Log(a))
    }

    constructor ()
      ensures Valid() && fresh(exp) && fresh(log)
      ensures exp[510] == 0 && exp[511] == 0 && LogAt(0) == 0
    {
      exp := new bv8[512](_ => 0);
      log := new nat[256](_ => 0);
      new;
      FillPowers();
      FillSecondPeriod();
    }

    method SetLog(a: bv8, i: nat)
      requires log.Length == 256
      modifies log
      ensures forall b: bv8 :: LogAt(b) == if b == a then i else old(LogAt(b))
    {
      log[a as int] := i;
    }

    /** The shift loop: x runs over the powers of the generator. */
    method FillPowers()
      requires exp.Length == 512 && log.Length == 256
      requires forall j :: 0 <= j < 512 ==> exp[j] == 0
      requires LogAt(0) == 0
      modifies exp, log
      ensures forall j: nat :: j < 255 ==> exp[j] == Exp(j)
      ensures forall j: nat :: 255 <= j < 512 ==> exp[j] == 0
      ensures forall a: bv8 :: a != 0 ==> LogAt(a) == Log(a)
      ensures LogAt(0) == 0
    {
      hide Xtime, Iter, Exp, Log;
      var x: bv16 := 1;
      FirstPower();
      for i := 0 to 255
        invariant x == Exp(i) as bv16
        invariant forall j: nat :: j < i ==> exp[j] == Exp(j)
        invariant forall a: bv8 :: a != 0 && Log(a) < i ==> LogAt(a) == Log(a)
        invariant forall j: nat :: i <= j < 512 ==> exp[j] == 0
        invariant LogAt(0) == 0
      {
        LogExp(i);
        exp[i] := x as bv8;
        SetLog(x as bv8, i);
        NextPower(i);
        x := x << 1;
        if x & 0x100 != 0 {
          x := x ^ 0x11D;
        }
      }
    }

    /** The copy loop. */
    method FillSecondPeriod()
      requires exp.Length == 512
      requires forall j: nat :: j < 255 ==> exp[j] == Exp(j)
      modifies exp
      ensures forall j: nat :: j < 510 ==> exp[j] == Exp(j)
      ensures exp[510] == old(exp[510]) && exp[511] == old(exp[511])
    {
      hide *;
      for i := 0 to 255
        invariant forall j: nat :: j < 255 + i ==> exp[j] == Exp(j)
        invariant exp[510] == old(exp[510]) && exp[511] == old(exp[511])
      {
        ExpPeriodic(i);
        exp[255 + i] := exp[i];
      }
    }

    method Multiply(a: bv8, b: bv8) returns (r: bv8)
      requires Valid()
      ensures r == Mul(a, b)
    {
      MulZero(a);
      MulZero(b);
      if a == 0 || b == 0 {
        return 0;
      }
      MulByLogs(a, b);
      return exp[LogAt(a) + LogAt(b)];
    }

    method Inverse(a: bv8) returns (r: bv8)
      requires Valid()
      ensures r == Inv(a)
      ensures if a == 0 then r == 0 else Mul(a, r) == 1
    {
      if a == 0 {
        return 0;
      }
      MulInverse(a);
      return exp[255 - LogAt(a)];
    }

    method Divide(a: bv8, b: bv8) returns (r: bv8)
      requires Valid()
      ensures if b == 0 then r == 0 else Mul(r, b) == a
    {
      var i := Inverse(b);
      r := Multiply(a, i);
      if b == 0 {
        MulZero(a);
      } else {
        MulInverse(b);
        MulAssociates(a, i, b);
        MulOne(a);
      }
    }
  }
}
