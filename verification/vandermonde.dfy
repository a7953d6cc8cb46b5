/** Polynomials over GF(2^8) and the systematic Vandermonde matrix. */
module Vandermonde {
  import opened Bytes
  import opened Gf
  import opened Linear
  import opened Matrices

  /** The polynomial with coefficients p, lowest first, at the point a. */
  function Eval(p: Vec, a: bv8): bv8 {
    if |p| == 0 then 0 else Add(p[0], Mul(a, Eval(p[1..], a)))
  }

  function Power(a: bv8, n: nat): bv8 {
    if n == 0 then 1 else Mul(Power(a, n - 1), a)
  }

  function PowerRow(a: bv8, k: nat): (row: Vec)
    ensures |row| == k
  {
    seq(k, c requires 0 <= c < k => Power(a, c))
  }

  lemma {:induction false} EvalSnoc(p: Vec, c: bv8, a: bv8)
    ensures Eval(p + [c], a) == Add(Eval(p, a), Mul(Power(a, |p|), c))
  {
    hide Add, Mul;
    var q := p + [c];
    if |p| == 0 {
      assert q[1..] == [];
      MulZero(a); MulOne(c); AddLaws(c, 0, 0); AddLaws(0, c, 0);
    } else {
      var n := |p| - 1;
      assert q[1..] == p[1..] + [c];
      EvalSnoc(p[1..], c, a);
      MulAddRight(a, Eval(p[1..], a), Mul(Power(a, n), c));
      MulAssociates(a, Power(a, n), c);
      MulCommutes(a, Power(a, n));
      AddLaws(p[0], Mul(a, Eval(p[1..], a)), Mul(Power(a, |p|), c));
    }
  }

  /** A row of powers times a coefficient vector evaluates the polynomial. */
  lemma {:induction false} RowEvaluates(a: bv8, k: nat, p: Vec, n: nat)
    requires n <= k && n <= |p|
    ensures Dot(PowerRow(a, k), p, n) == Eval(p[..n], a)
  {
    hide Add, Mul;
    if n > 0 {
      RowEvaluates(a, k, p, n - 1);
      assert p[..n] == p[..n - 1] + [p[n - 1]];
      EvalSnoc(p[..n - 1], p[n - 1], a);
    }
  }

  // ----- a nonzero polynomial of degree below k has fewer than k roots

  /** The quotient of p by (t - a). */
  function Quotient(p: Vec, a: bv8): (q: Vec)
    requires |p| > 0
    ensures |q| == |p| - 1
  {
    if |p| == 1 then [] else [Eval(p[1..], a)] + Quotient(p[1..], a)
  }

  lemma {:induction false} FactorAlgebra(p0: bv8, t: bv8, a: bv8, e: bv8, q: bv8)
    ensures Add(p0, Mul(t, Add(e, Mul(Add(t, a), q)))) ==
            Add(Add(p0, Mul(a, e)), Mul(Add(t, a), Add(e, Mul(t, q))))
  {
    hide *;
    var s := Add(t, a);
    var te, ae, x := Mul(t, e), Mul(a, e), Mul(t, Mul(s, q));
    MulAddRight(t, e, Mul(s, q));
    MulAddRight(s, e, Mul(t, q));
    MulAddLeft(t, a, e);
    MulAssociates(t, s, q); MulCommutes(t, s); MulAssociates(s, t, q);
    // left: p0 + (te + x);  right: (p0 + ae) + ((te + ae) + x)
    AddLaws(te, ae, x); AddLaws(te, ae, 0);
    AddLaws(ae, te, x);
    AddLaws(p0, ae, Add(ae, Add(te, x)));
    AddLaws(ae, ae, Add(te, x));
    AddLaws(Add(te, x), 0, 0); AddLaws(0, Add(te, x), 0);
  }

  lemma {:induction false} Factor(p: Vec, a: bv8, t: bv8)
    requires |p| > 0
    ensures Eval(p, t) == Add(Eval(p, a), Mul(Add(t, a), Eval(Quotient(p, a), t)))
  {
    hide Add, Mul;
    if |p| == 1 {
      assert p[1..] == [];
      MulZero(t); MulZero(a); MulZero(Add(t, a)); AddLaws(p[0], 0, 0);
    } else {
      var p1 := p[1..];
      Factor(p1, a, t);
      var q := Quotient(p, a);
      assert q[0] == Eval(p1, a) && q[1..] == Quotient(p1, a);
      FactorAlgebra(p[0], t, a, Eval(p1, a), Eval(Quotient(p1, a), t));
    }
  }

  lemma {:induction false} QuotientZero(p: Vec, a: bv8)
    requires |p| > 0 && Eval(p, a) == 0 && Quotient(p, a) == Zeros(|p| - 1)
    ensures p == Zeros(|p|)
  {
    hide Add, Mul;
    MulZero(a);
    AddLaws(p[0], 0, 0);
    if |p| == 1 {
      assert p[1..] == [];
    } else {
      var q := Quotient(p, a);
      assert q[0] == Eval(p[1..], a) && q[1..] == Quotient(p[1..], a);
      assert q[1..] == Zeros(|p| - 2);
      QuotientZero(p[1..], a);
      assert p == [p[0]] + p[1..];
    }
  }

  lemma {:induction false} FewRoots(p: Vec, roots: seq<bv8>)
    requires |roots| == |p| && Distinct(roots)
    requires forall i :: 0 <= i < |roots| ==> Eval(p, roots[i]) == 0
    ensures p == Zeros(|p|)
    decreases |p|
  {
    hide Add, Mul;
    if |p| > 0 {
      var a, rest := roots[0], roots[1..];
      var q := Quotient(p, a);
      forall i | 0 <= i < |rest| ensures Eval(q, rest[i]) == 0 {
        var t := rest[i];
        assert t == roots[i + 1] && t != a;
        Factor(p, a, t);
        AddLaws(Mul(Add(t, a), Eval(q, t)), 0, 0);
        AddLaws(0, Mul(Add(t, a), Eval(q, t)), 0);
        AddIsZero(t, a);
        NoZeroDivisors(Add(t, a), Eval(q, t));
      }
      FewRoots(q, rest);
      QuotientZero(p, a);
    }
  }

  // ----- the encoding matrix

  function Point(i: nat): bv8
    requires i < 255
  {
    (i + 1) as bv8
  }

  lemma {:induction false} PointValue(i: nat)
    requires i < 255
    ensures Point(i) as int == i + 1
  {
    Bytes.ByteRoundTrip(i + 1);
  }

  lemma {:induction false} PointInjective(i: nat, j: nat)
    requires i < 255 && j < 255 && i != j
    ensures Point(i) != Point(j)
  {
    hide Point;
    PointValue(i);
    PointValue(j);
  }

  /** The full (k+m) x k Vandermonde matrix over the points 1..k+m. */
  function Full(k: nat, m: nat): Mat
    requires k + m <= 255
  {
    seq(k + m, i requires 0 <= i < k + m => PowerRow(Point(i), k))
  }

  function Select(a: Mat, sel: seq<nat>): Mat
    requires forall i :: 0 <= i < |sel| ==> sel[i] < |a|
  {
    seq(|sel|, i requires 0 <= i < |sel| => a[sel[i]])
  }

  ghost predicate Selection(sel: seq<nat>, n: nat, k: nat) {
    |sel| == k && Distinct(sel) && forall i :: 0 <= i < k ==> sel[i] < n
  }

  /** Any k distinct Vandermonde rows have only the trivial kernel. */
  lemma {:induction false} FullRowsIndependent(k: nat, m: nat, sel: seq<nat>)
    requires k + m <= 255 && Selection(sel, k + m, k)
    ensures TrivialKernel(Select(Full(k, m), sel), k)
  {
    hide Add, Mul, Dot, Eval, Power, Point;
    var v := Select(Full(k, m), sel);
    var roots := seq(k, i requires 0 <= i < k => Point(sel[i]));
    forall i, j | 0 <= i < j < k ensures roots[i] != roots[j] { PointInjective(sel[i], sel[j]); }
    forall x: Vec | |x| == k && InKernel(v, x) ensures x == Zeros(k) {
      forall i | 0 <= i < k ensures Eval(x, roots[i]) == 0 {
        assert v[i] == PowerRow(roots[i], k);
        RowEvaluates(roots[i], k, x, k);
        assert x[..k] == x;
      }
      FewRoots(x, roots);
    }
  }

  /** M is V * T^-1, where V is the full Vandermonde matrix and T its top block. */
  ghost predicate Systematic(enc: Mat, k: nat, m: nat)
    requires k + m <= 255
  {
    exists b: Mat :: Inverses(Full(k, m)[..k], b) && enc == Times(Full(k, m), b, k)
  }

  /** Data shards pass through: the top k rows are the identity. */
  lemma {:induction false} SystematicTop(enc: Mat, k: nat, m: nat, r: nat)
    requires k + m <= 255 && Systematic(enc, k, m) && r < k
    ensures Shaped(enc, k + m, k) && enc[r] == Unit(k, r)
  {
    hide Add, Mul, Dot;
    var v := Full(k, m);
    var b: Mat :| Inverses(v[..k], b) && enc == Times(v, b, k);
    assert enc[r] == Times(v[..k], b, k)[r];
    assert Identity(k)[r] == Unit(k, r);
  }

  /** Any k distinct rows of the encoding matrix have only the trivial kernel. */
  lemma {:induction false} SystematicRowsIndependent(enc: Mat, k: nat, m: nat, sel: seq<nat>)
    requires k + m <= 255 && Systematic(enc, k, m) && Selection(sel, k + m, k)
    ensures Shaped(enc, k + m, k)
    ensures TrivialKernel(Select(enc, sel), k)
  {
    hide Add, Mul, Dot;
    var v := Full(k, m);
    var b: Mat :| Inverses(v[..k], b) && enc == Times(v, b, k);
    FullRowsIndependent(k, m, sel);
    InverseOfInverse(v[..k], b);
    InverseTrivialKernel(b, v[..k]);
    forall x: Vec | |x| == k && InKernel(Select(enc, sel), x) ensures x == Zeros(k) {
      var y := Apply(b, x);
      forall i | 0 <= i < k ensures Dot(Select(v, sel)[i], y, k) == 0 {
        DotThrough(v[sel[i]], b, x, enc[sel[i]]);
        assert Dot(Select(enc, sel)[i], x, k) == 0;
      }
      assert InKernel(Select(v, sel), y);
      forall r | 0 <= r < k ensures Dot(b[r], x, k) == 0 { assert y[r] == 0; }
      assert InKernel(b, x);
    }
  }

  /** The parameters determine the encoding matrix, so a writer and a reader agree on it. */
  lemma {:induction false} SystematicUnique(enc: Mat, other: Mat, k: nat, m: nat)
    requires k + m <= 255 && Systematic(enc, k, m) && Systematic(other, k, m)
    ensures enc == other
  {
    hide Times, Dot;
    var b: Mat :| Inverses(Full(k, m)[..k], b) && enc == Times(Full(k, m), b, k);
    var c: Mat :| Inverses(Full(k, m)[..k], c) && other == Times(Full(k, m), c, k);
    InverseUnique(Full(k, m)[..k], b, c);
  }

  /** The values of a polynomial at the first n points. */
  function Values(p: Vec, n: nat): (v: Vec)
    requires n <= 255
    ensures |v| == n
  {
    seq(n, i requires 0 <= i < n => Eval(p, Point(i)))
  }

  lemma {:induction false} FullEvaluates(k: nat, m: nat, p: Vec, r: nat)
    requires k + m <= 255 && |p| == k && r < k + m
    ensures Dot(Full(k, m)[r], p, k) == Eval(p, Point(r))
  {
    hide Add, Mul, Dot, Eval, Power, Point;
    RowEvaluates(Point(r), k, p, k);
    assert p[..k] == p;
  }

  lemma {:induction false} TopEvaluates(k: nat, m: nat, p: Vec)
    requires k + m <= 255 && |p| == k
    ensures Apply(Full(k, m)[..k], p) == Values(p, k)
  {
    hide Add, Mul, Dot, Eval, PowerRow, Point;
    forall r | 0 <= r < k ensures Apply(Full(k, m)[..k], p)[r] == Values(p, k)[r] { FullEvaluates(k, m, p, r); }
  }

  /** The encoding matrix extends a polynomial: applied to its values at the first k points, row i gives its value at
      point i. */
  lemma {:induction false} SystematicEvaluates(enc: Mat, k: nat, m: nat, p: Vec, i: nat)
    requires k + m <= 255 && Systematic(enc, k, m) && |p| == k && i < k + m
    ensures Shaped(enc, k + m, k) && Dot(enc[i], Values(p, k), k) == Eval(p, Point(i))
  {
    hide Add, Mul, Dot, Eval, PowerRow, Point, Values;
    var v := Full(k, m);
    var b: Mat :| Inverses(v[..k], b) && enc == Times(v, b, k);
    TopEvaluates(k, m, p);
    FullEvaluates(k, m, p, i);
    ApplyTimes(b, v[..k], p);
    ApplyIdentity(p);
    DotThrough(v[i], b, Values(p, k), enc[i]);
  }

  /** Any k values are those of some polynomial with k coefficients. */
  lemma {:induction false} Interpolates(enc: Mat, k: nat, m: nat, x: Vec) returns (p: Vec)
    requires k + m <= 255 && Systematic(enc, k, m) && |x| == k
    ensures |p| == k && Values(p, k) == x
  {
    hide Add, Mul, Dot, Eval, PowerRow, Point, Values;
    var v := Full(k, m);
    var b: Mat :| Inverses(v[..k], b) && enc == Times(v, b, k);
    p := Apply(b, x);
    ApplyTimes(v[..k], b, x);
    ApplyIdentity(x);
    TopEvaluates(k, m, p);
  }

  lemma {:induction false} InverseOfInverse(a: Mat, b: Mat)
    requires Inverses(a, b)
    ensures Inverses(b, a)
  {
  }

  method NewFull(k: nat, m: nat) returns (v: Matrix)
    requires k + m <= 255
    ensures fresh(v) && fresh(v.data) && v.Valid() && v.rows == k + m && v.cols == k
    ensures v.Value() == Full(k, m)
  {
    hide Mul, Point;
    var n := k + m;
    v := new Matrix(n, k);
    for i := 0 to n
      invariant fresh(v.data)
      invariant forall r, c :: 0 <= r < i && 0 <= c < k ==> v.Get(r, c) == Power(Point(r), c)
    {
      var point := Point(i);
      var x := 1;
      for c := 0 to k
        invariant fresh(v.data)
        invariant x == Power(point, c)
        invariant forall r, p :: 0 <= r < n && 0 <= p < k && (r < i || (r == i && p < c)) ==>
          v.Get(r, p) == Power(Point(r), p)
      {
        v.Set(i, c, x);
        x := Mul(x, point);
      }
    }
    v.Matches(Full(k, m));
  }

  /** The rows of `from` listed in `sel`, as a new matrix. */
  method CopyRows(from: Matrix, sel: seq<nat>) returns (out: Matrix)
    requires from.Valid() && forall i :: 0 <= i < |sel| ==> sel[i] < from.rows
    ensures fresh(out) && fresh(out.data) && out.Valid() && out.rows == |sel| && out.cols == from.cols
    ensures out.Value() == Select(from.Value(), sel)
  {
    ghost var a := from.Value();
    out := new Matrix(|sel|, from.cols);
    for r := 0 to |sel|
      invariant fresh(out.data) && from.Value() == a
      invariant forall q, p :: 0 <= q < r && 0 <= p < from.cols ==> out.Get(q, p) == a[sel[q]][p]
    {
      for c := 0 to from.cols
        invariant fresh(out.data) && from.Value() == a
        invariant forall q, p :: 0 <= q < |sel| && 0 <= p < from.cols && (q < r || (q == r && p < c)) ==>
          out.Get(q, p) == a[sel[q]][p]
      {
        out.Set(r, c, from.Get(sel[r], c));
      }
    }
    out.Matches(Select(a, sel));
  }

  function FirstRows(k: nat): seq<nat> {
    seq(k, i requires 0 <= i < k => i)
  }

  /** The encoding matrix. The inversion of the top block always succeeds. */
  method NewSystematic(k: nat, m: nat) returns (out: Matrix)
    requires k + m <= 255
    ensures fresh(out) && fresh(out.data) && out.Valid() && out.rows == k + m && out.cols == k
    ensures Systematic(out.Value(), k, m)
  {
    hide Mul, Point, Inverses, Times, Full, TrivialKernel;
    var v := NewFull(k, m);
    var top := CopyRows(v, FirstRows(k));
    FullRowsIndependent(k, m, FirstRows(k));
    assert Select(Full(k, m), FirstRows(k)) == Full(k, m)[..k];
    var inverted := top.Invert();
    assert inverted.Some?;
    out := v.Multiply(inverted.value);
  }
}
