/** Reed-Solomon encoding and reconstruction. */
module ReedSolomonCode {
  import opened Bytes
  import opened Gf
  import opened Linear
  import opened Matrices
  import opened Vandermonde

  type Shard = seq<bv8>

  datatype Outcome = Ok | TooFewShards | InconsistentShards

  ghost predicate EqualLength(data: seq<Shard>, k: nat, len: nat) {
    |data| == k && forall i :: 0 <= i < k ==> |data[i]| == len
  }

  /** The bytes at one position across the shards. */
  function Across(data: seq<Shard>, len: nat, pos: nat): Vec
    requires EqualLength(data, |data|, len) && pos < len
  {
    seq(|data|, i requires 0 <= i < |data| => data[i][pos])
  }

  /** Shard i of the code word for `data`: row i of the encoding matrix at every position. */
  function Encoded(enc: Mat, data: seq<Shard>, len: nat, i: nat): (s: Shard)
    requires i < |enc| && Shaped(enc, |enc|, |data|) && EqualLength(data, |data|, len)
    ensures |s| == len
  {
    seq(len, pos requires 0 <= pos < len => Dot(enc[i], Across(data, len, pos), |data|))
  }

  /** The code is systematic: the first k shards of a code word are the data. */
  lemma {:induction false} DataPassesThrough(enc: Mat, k: nat, m: nat, data: seq<Shard>, len: nat, i: nat)
    requires k + m <= 255 && Systematic(enc, k, m) && EqualLength(data, k, len) && i < k
    ensures Shaped(enc, k + m, k) && Encoded(enc, data, len, i) == data[i]
  {
    hide Add, Mul, Dot, Systematic;
    SystematicTop(enc, k, m, i);
    forall pos | 0 <= pos < len ensures Encoded(enc, data, len, i)[pos] == data[i][pos] {
      DotUnit(Across(data, len, pos), i, k);
    }
  }

  /** A polynomial that takes the data bytes of one position as its values at the points 1 to k. */
  ghost predicate Through(p: Vec, data: seq<Shard>, pos: nat)
    requires |data| <= 255 && forall j :: 0 <= j < |data| ==> pos < |data[j]|
  {
    |p| == |data| && forall j :: 0 <= j < |data| ==> Eval(p, (j + 1) as bv8) == data[j][pos]
  }

  lemma {:induction false} PointIs(i: nat)
    requires i < 255
    ensures Point(i) == (i + 1) as bv8
  {
  }

  lemma {:induction false} ThroughValues(p: Vec, data: seq<Shard>, len: nat, pos: nat)
    requires |data| <= 255 && EqualLength(data, |data|, len) && pos < len && |p| == |data|
    ensures Through(p, data, pos) <==> Values(p, |data|) == Across(data, len, pos)
  {
    hide Eval, Point;
    var v, x := Values(p, |data|), Across(data, len, pos);
    forall j | 0 <= j < |data| ensures v[j] == Eval(p, (j + 1) as bv8) { PointIs(j); }
    if v == x {
      forall j | 0 <= j < |data| ensures Eval(p, (j + 1) as bv8) == data[j][pos] { assert v[j] == x[j]; }
    }
    if Through(p, data, pos) { assert v == x; }
  }

  /** The code word is made of the values of one polynomial per position: it goes through the data at the points 1 to k,
      and shard i is its value at the point i + 1. */
  lemma {:induction false} CodeIsPolynomial(enc: Mat, k: nat, m: nat, data: seq<Shard>, len: nat, pos: nat, p: Vec,
                                            i: nat)
    requires k + m <= 255 && Systematic(enc, k, m) && EqualLength(data, k, len) && pos < len && i < k + m
    requires Through(p, data, pos)
    ensures Shaped(enc, k + m, k) && Encoded(enc, data, len, i)[pos] == Eval(p, (i + 1) as bv8)
  {
    hide Dot, Eval, Systematic, Through, Values, Point;
    assert |p| == k by { ThroughLength(p, data, pos); }
    ThroughValues(p, data, len, pos);
    SystematicEvaluates(enc, k, m, p, i);
    PointIs(i);
  }

  lemma {:induction false} ThroughLength(p: Vec, data: seq<Shard>, pos: nat)
    requires |data| <= 255 && (forall j :: 0 <= j < |data| ==> pos < |data[j]|) && Through(p, data, pos)
    ensures |p| == |data|
  {
  }

  lemma {:induction false} HasPolynomial(enc: Mat, k: nat, m: nat, data: seq<Shard>, len: nat, pos: nat)
    requires k + m <= 255 && Systematic(enc, k, m) && EqualLength(data, k, len) && pos < len
    ensures exists p :: Through(p, data, pos)
  {
    hide Eval, Systematic, Through, Values;
    var p := Interpolates(enc, k, m, Across(data, len, pos));
    ThroughValues(p, data, len, pos);
    assert Through(p, data, pos);
  }

  /** At this position data and parity are values of one polynomial at the points 1 to k + m. */
  ghost predicate OnPolynomial(data: seq<Shard>, parity: seq<Shard>, pos: nat)
  {
    && |data| + |parity| <= 255
    && (forall j :: 0 <= j < |data| ==> pos < |data[j]|) && (forall j :: 0 <= j < |parity| ==> pos < |parity[j]|)
    && (exists p :: Through(p, data, pos))
    && forall p, j :: Through(p, data, pos) && 0 <= j < |parity| ==>
         parity[j][pos] == Eval(p, (|data| + j + 1) as bv8)
  }

  lemma {:induction false} ParityOnPolynomial(enc: Mat, k: nat, m: nat, data: seq<Shard>, parity: seq<Shard>, len: nat,
                                              pos: nat)
    requires k + m <= 255 && Systematic(enc, k, m) && Shaped(enc, k + m, k) && EqualLength(data, k, len) && pos < len
    requires |parity| == m && forall j :: 0 <= j < m ==> parity[j] == Encoded(enc, data, len, k + j)
    ensures OnPolynomial(data, parity, pos)
  {
    hide Dot, Eval, Systematic, Through;
    HasPolynomial(enc, k, m, data, len, pos);
    forall p, j | Through(p, data, pos) && 0 <= j < m ensures parity[j][pos] == Eval(p, (k + j + 1) as bv8) {
      CodeIsPolynomial(enc, k, m, data, len, pos, p, k + j);
    }
  }

  // ----- which shards are there

  /** The indices below n whose presence is `there`, in increasing order. */
  function Indices(shards: seq<Option<Shard>>, n: nat, there: bool): (s: seq<nat>)
    requires n <= |shards|
    ensures Distinct(s) && |s| <= n
    ensures forall i :: 0 <= i < |s| ==> s[i] < n && shards[s[i]].Some? == there
    ensures forall j: nat :: j < n && shards[j].Some? == there ==> j in s
  {
    if n == 0 then [] else
      var rest := Indices(shards, n - 1, there);
      if shards[n - 1].Some? == there then rest + [n - 1] else rest
  }

  lemma {:induction false} PresentAndMissing(shards: seq<Option<Shard>>, n: nat)
    requires n <= |shards|
    ensures |Indices(shards, n, true)| + |Indices(shards, n, false)| == n
  {
    if n > 0 { PresentAndMissing(shards, n - 1); }
  }

  /** The first k present indices, if there are k. */
  function Survivors(shards: seq<Option<Shard>>, k: nat): (s: seq<nat>)
    requires k <= |Indices(shards, |shards|, true)|
    ensures Selection(s, |shards|, k)
    ensures forall i :: 0 <= i < k ==> shards[s[i]].Some?
  {
    Indices(shards, |shards|, true)[..k]
  }

  /** What decides the outcome, in the order the checks are made. */
  function Expected(shards: seq<Option<Shard>>, k: nat, m: nat): Outcome
    requires k >= 1
  {
    if |shards| != k + m then InconsistentShards
    else if |Indices(shards, |shards|, true)| < k then TooFewShards
    else
      var s := Survivors(shards, k);
      if exists i :: 0 <= i < k && |shards[s[i]].value| != |shards[s[0]].value|
      then InconsistentShards else Ok
  }

  ghost predicate SameLengths(shards: seq<Option<Shard>>) {
    forall i, j :: 0 <= i < j < |shards| && shards[i].Some? && shards[j].Some? ==>
      |shards[i].value| == |shards[j].value|
  }

  /** With the right number of slots, the refusal for too few shards comes exactly if more than m are missing;
      lengths are looked at only otherwise. */
  lemma {:induction false} RefusedExactly(shards: seq<Option<Shard>>, k: nat, m: nat)
    requires k >= 1
    ensures Expected(shards, k, m) == TooFewShards <==> |shards| == k + m && |Indices(shards, |shards|, false)| > m
    ensures Expected(shards, k, m) == Ok ==> |shards| == k + m && |Indices(shards, |shards|, false)| <= m
    ensures |shards| == k + m && |Indices(shards, |shards|, false)| <= m && SameLengths(shards) ==>
      Expected(shards, k, m) == Ok
  {
    hide Indices;
    PresentAndMissing(shards, |shards|);
    if |shards| == k + m && |Indices(shards, |shards|, false)| <= m {
      var s := Survivors(shards, k);
      if SameLengths(shards) {
        forall i | 0 <= i < k ensures |shards[s[i]].value| == |shards[s[0]].value| {
          if s[i] < s[0] { assert shards[s[i]].Some? && shards[s[0]].Some?; }
        }
      }
    }
  }

  /** Every missing shard is filled with the code word that the first k survivors determine. */
  ghost predicate Filled(enc: Mat, k: nat, m: nat, before: seq<Option<Shard>>, after: seq<Option<Shard>>,
                         data: seq<Shard>, len: nat)
    requires k >= 1 && Shaped(enc, k + m, k) && Expected(before, k, m) == Ok
    requires EqualLength(data, k, len) && |after| == |before|
  {
    && (forall i :: 0 <= i < k ==> before[Survivors(before, k)[i]].value == Encoded(enc, data, len,
         Survivors(before, k)[i]))
    && (forall i :: 0 <= i < k + m ==>
          after[i] == if before[i].Some? then before[i] else Some(Encoded(enc, data, len, i)))
  }

  /** k shards of a code word determine the data. */
  lemma {:induction false} DataDetermined(enc: Mat, k: nat, m: nat, sel: seq<nat>, d: seq<Shard>, e: seq<Shard>,
                                          len: nat)
    requires k + m <= 255 && Systematic(enc, k, m) && Shaped(enc, k + m, k) && Selection(sel, k + m, k)
    requires EqualLength(d, k, len) && EqualLength(e, k, len)
    requires forall i :: 0 <= i < k ==> Encoded(enc, d, len, sel[i]) == Encoded(enc, e, len, sel[i])
    ensures d == e
  {
    hide Add, Mul, Dot, Systematic;
    SystematicRowsIndependent(enc, k, m, sel);
    forall pos, j | 0 <= pos < len && 0 <= j < k ensures d[j][pos] == e[j][pos] {
      var x, y := Across(d, len, pos), Across(e, len, pos);
      var z := Plus(x, y);
      forall i | 0 <= i < k ensures Dot(Select(enc, sel)[i], z, k) == 0 {
        assert Encoded(enc, d, len, sel[i])[pos] == Encoded(enc, e, len, sel[i])[pos];
        DotPlusRight(enc[sel[i]], x, y, k);
        AddIsZero(Dot(enc[sel[i]], x, k), Dot(enc[sel[i]], y, k));
      }
      assert InKernel(Select(enc, sel), z);
      assert z[j] == 0;
      AddIsZero(x[j], y[j]);
    }
    forall j | 0 <= j < k ensures d[j] == e[j] {
      assert forall pos :: 0 <= pos < len ==> d[j][pos] == e[j][pos];
    }
  }

  /** Reconstruction is exact: if every surviving shard belongs to the code word of
      `data`, then after filling, all k+m shards are that code word. */
  lemma {:induction false} ReconstructionExact(enc: Mat, k: nat, m: nat, before: seq<Option<Shard>>,
                                               after: seq<Option<Shard>>,
                            found: seq<Shard>, data: seq<Shard>, len: nat)
    requires k >= 1 && k + m <= 255 && Systematic(enc, k, m) && Shaped(enc, k + m, k)
    requires Expected(before, k, m) == Ok && |after| == |before|
    requires EqualLength(found, k, len) && EqualLength(data, k, len)
    requires Filled(enc, k, m, before, after, found, len)
    requires forall i :: 0 <= i < k + m && before[i].Some? ==> before[i].value == Encoded(enc, data, len, i)
    ensures forall i :: 0 <= i < k + m ==> after[i] == Some(Encoded(enc, data, len, i))
  {
    hide Add, Mul, Dot, Systematic;
    DataDetermined(enc, k, m, Survivors(before, k), found, data, len);
  }

  // ----- decoding

  /** The data the survivors stand for, given the inverse of their rows. */
  function Decoded(inv: Mat, surviving: seq<Shard>, len: nat): (d: seq<Shard>)
    requires Shaped(inv, |surviving|, |surviving|) && EqualLength(surviving, |surviving|, len)
    ensures EqualLength(d, |surviving|, len)
  {
    seq(|surviving|, t requires 0 <= t < |surviving| => Encoded(inv, surviving, len, t))
  }

  lemma {:induction false} DecodedAcross(inv: Mat, s: seq<Shard>, len: nat, pos: nat)
    requires Shaped(inv, |s|, |s|) && EqualLength(s, |s|, len) && pos < len
    ensures Across(Decoded(inv, s, len), len, pos) == Apply(inv, Across(s, len, pos))
  {
    hide Dot;
  }

  /** Encoding the decoded data gives the survivors back. */
  lemma {:induction false} DecodedFitsSurvivors(enc: Mat, k: nat, sel: seq<nat>, inv: Mat, s: seq<Shard>, len: nat,
                                                i: nat)
    requires Shaped(enc, |enc|, k) && Selection(sel, |enc|, k) && EqualLength(s, k, len) && i < k
    requires Inverses(Select(enc, sel), inv)
    ensures Encoded(enc, Decoded(inv, s, len), len, sel[i]) == s[i]
  {
    hide Dot, Add, Mul;
    var sub := Select(enc, sel);
    forall pos | 0 <= pos < len ensures Encoded(enc, Decoded(inv, s, len), len, sel[i])[pos] == s[i][pos] {
      var x := Across(s, len, pos);
      DecodedAcross(inv, s, len, pos);
      ApplyTimes(sub, inv, x);
      ApplyIdentity(x);
      assert Apply(sub, Apply(inv, x))[i] == Dot(sub[i], Apply(inv, x), k);
      assert x[i] == s[i][pos];
    }
  }

  /** A missing shard is the survivors weighted by its row times the inverse. */
  lemma {:induction false} RebuiltFits(row: Vec, inv: Mat, s: seq<Shard>, len: nat, coeffs: Vec, pos: nat)
    requires |row| == |s| == |coeffs| && Shaped(inv, |s|, |s|) && EqualLength(s, |s|, len) && pos < len
    requires forall j :: 0 <= j < |s| ==> coeffs[j] == Dot(row, Column(inv, |s|, j), |s|)
    ensures Dot(coeffs, Across(s, len, pos), |s|) == Dot(row, Across(Decoded(inv, s, len), len, pos), |s|)
  {
    hide Dot, Add, Mul;
    DecodedAcross(inv, s, len, pos);
    DotThrough(row, inv, Across(s, len, pos), coeffs);
  }

  /** A 256-entry lookup table for multiplication by `coeff`. */
  ghost predicate IsTable(t: seq<bv8>, coeff: bv8) {
    |t| == 256 && forall x :: 0 <= x < 256 ==> t[x] == Mul(coeff, x as bv8)
  }

  lemma {:induction false} Lookup(t: seq<bv8>, coeff: bv8, x: bv8)
    requires IsTable(t, coeff)
    ensures |t| == 256 && t[x as int] == Mul(coeff, x)
  {
    hide Mul;
    assert (x as int) as bv8 == x;
  }

  method MulTable(coeff: bv8) returns (t: seq<bv8>)
    ensures IsTable(t, coeff)
  {
    hide Mul;
    t := [];
    for x := 0 to 256
      invariant |t| == x && forall y :: 0 <= y < x ==> t[y] == Mul(coeff, y as bv8)
    {
      t := t + [Mul(coeff, x as bv8)];
    }
  }

  class ReedSolomon {
    const k: nat
    const m: nat
    const matrix: Matrix
    /** tables[j][i] multiplies by the coefficient of data shard i in parity shard j. */
    const tables: seq<seq<seq<bv8>>>

    ghost predicate Valid()
      reads matrix.data
    {
      && k >= 1 && m >= 1 && k + m <= 255
      && matrix.Valid() && matrix.rows == k + m && matrix.cols == k
      && Systematic(matrix.Value(), k, m)
      && |tables| == m
      && forall j :: 0 <= j < m ==> RowTables(tables[j], matrix.Value()[k + j], k)
    }

    static ghost predicate RowTables(row: seq<seq<bv8>>, coeffs: Vec, k: nat) {
      |row| == k <= |coeffs| && forall i :: 0 <= i < k ==> IsTable(row[i], coeffs[i])
    }

    constructor (k: nat, m: nat)
      requires k >= 1 && m >= 1 && k + m <= 255
      ensures Valid() && this.k == k && this.m == m
      ensures fresh(matrix) && fresh(matrix.data)
    {
      hide Systematic, RowTables;
      var enc := NewSystematic(k, m);
      ghost var e := enc.Value();
      var all: seq<seq<seq<bv8>>> := [];
      for j := 0 to m
        invariant |all| == j && enc.Value() == e
        invariant forall q :: 0 <= q < j ==> RowTables(all[q], e[k + q], k)
      {
        var row := NewRowTables(enc, k + j);
        all := all + [row];
      }
      this.k, this.m, matrix, tables := k, m, enc, all;
    }

    static method NewRowTables(enc: Matrix, r: nat) returns (row: seq<seq<bv8>>)
      requires enc.Valid() && r < enc.rows
      ensures RowTables(row, enc.Value()[r], enc.cols)
    {
      hide IsTable;
      row := [];
      for i := 0 to enc.cols
        invariant |row| == i
        invariant forall q :: 0 <= q < i ==> IsTable(row[q], enc.Value()[r][q])
      {
        var t := MulTable(enc.Get(r, i));
        row := row + [t];
      }
    }

    /** The m parity shards of k equal-length data shards. */
    method Encode(data: seq<Shard>) returns (parity: seq<Shard>)
      requires Valid() && |data| == k && EqualLength(data, k, |data[0]|)
      ensures |parity| == m
      ensures forall j :: 0 <= j < m ==> parity[j] == Encoded(matrix.Value(), data, |data[0]|, k + j)
      ensures forall pos :: 0 <= pos < |data[0]| ==> OnPolynomial(data, parity, pos)
    {
      hide Systematic, RowTables, OnPolynomial, Dot;
      var len := |data[0]|;
      parity := [];
      for j := 0 to m
        invariant |parity| == j
        invariant forall q :: 0 <= q < j ==> parity[q] == Encoded(matrix.Value(), data, len, k + q)
      {
        var shard := EncodeParity(data, len, j);
        parity := parity + [shard];
      }
      forall pos | 0 <= pos < len ensures OnPolynomial(data, parity, pos) {
        ParityOnPolynomial(matrix.Value(), k, m, data, parity, len, pos);
      }
    }

    method EncodeParity(data: seq<Shard>, len: nat, j: nat) returns (shard: Shard)
      requires Valid() && EqualLength(data, k, len) && j < m
      ensures shard == Encoded(matrix.Value(), data, len, k + j)
    {
      hide Mul, Systematic, IsTable, Add;
      ghost var row := matrix.Value()[k + j];
      var table := tables[j];
      var par := new bv8[len](_ => 0);
      for i := 0 to k
        invariant forall p :: 0 <= p < len ==> par[p] == Dot(row, Across(data, len, p), i)
      {
        AccumulateShard(par, table[i], data[i], row, data, i);
      }
      shard := par[..];
    }

    /** The inner loop: adds one data shard, multiplied through its table, to the parity buffer. */
    static method AccumulateShard(par: array<bv8>, t: seq<bv8>, shard: Shard, ghost row: Vec, ghost data: seq<Shard>,
        ghost i: nat)
      requires EqualLength(data, |data|, par.Length) && i < |data| <= |row|
      requires shard == data[i] && IsTable(t, row[i])
      requires forall p :: 0 <= p < par.Length ==> par[p] == Dot(row, Across(data, par.Length, p), i)
      modifies par
      ensures forall p :: 0 <= p < par.Length ==> par[p] == Dot(row, Across(data, par.Length, p), i + 1)
    {
      hide Mul, IsTable, Add;
      ghost var len := par.Length;
      for pos := 0 to par.Length
        invariant forall p :: 0 <= p < len ==> par[p] == Dot(row, Across(data, len, p), if p < pos then i + 1 else i)
      {
        Lookup(t, row[i], shard[pos]);
        par[pos] := Add(par[pos], t[shard[pos] as int]);
      }
    }

    method IndicesOf(shards: array<Option<Shard>>, there: bool) returns (s: seq<nat>)
      ensures s == Indices(shards[..], shards.Length, there)
    {
      s := [];
      for i := 0 to shards.Length
        invariant s == Indices(shards[..], i, there)
      {
        if shards[i].Some? == there {
          s := s + [i];
        }
      }
    }

    /** The checks of a reconstruction: is it possible, and from which shards? */
    method Examine(
                   shards: array<Option<Shard>>)
        returns (outcome: Outcome, survivors: seq<nat>, surviving: seq<Shard>, len: nat)
      requires k >= 1
      ensures outcome == Expected(shards[..], k, m)
      ensures outcome == Ok ==>
        && survivors == Survivors(shards[..], k) && EqualLength(surviving, k, len)
        && forall i :: 0 <= i < k ==> surviving[i] == shards[survivors[i]].value
    {
      survivors, surviving, len := [], [], 0;
      if shards.Length != k + m {
        return InconsistentShards, survivors, surviving, len;
      }
      ghost var before := shards[..];
      var present := IndicesOf(shards, true);
      hide Indices;
      if |present| < k {
        return TooFewShards, survivors, surviving, len;
      }
      survivors := present[..k];
      assert survivors == Survivors(before, k);
      len := |shards[survivors[0]].value|;
      for i := 0 to k
        invariant EqualLength(surviving, i, len)
        invariant forall q :: 0 <= q < i ==> surviving[q] == before[survivors[q]].value
      {
        var s := shards[survivors[i]].value;
        if |s| != len {
          return InconsistentShards, survivors, surviving, len;
        }
        surviving := surviving + [s];
      }
      return Ok, survivors, surviving, len;
    }

    /** The weights of the survivors in shard mi: its row times the inverse. */
    method Coefficients(mi: nat, inv: Matrix) returns (coeffs: seq<bv8>)
      requires Valid() && mi < k + m && inv.Valid() && inv.rows == inv.cols == k
      ensures |coeffs| == k
      ensures forall j :: 0 <= j < k ==> coeffs[j] == Dot(matrix.Value()[mi], Column(inv.Value(), k, j), k)
    {
      hide Systematic, Mul, Add;
      coeffs := [];
      ghost var row, b := matrix.Value()[mi], inv.Value();
      for j := 0 to k
        invariant |coeffs| == j
        invariant forall q :: 0 <= q < j ==> coeffs[q] == Dot(row, Column(b, k, q), k)
      {
        var acc := 0;
        ghost var column := Column(b, k, j);
        for t := 0 to k
          invariant acc == Dot(row, column, t)
        {
          acc := Add(acc, Mul(matrix.Get(mi, t), inv.Get(t, j)));
        }
        coeffs := coeffs + [acc];
      }
    }

    method Weigh(coeffs: seq<bv8>, surviving: seq<Shard>, len: nat) returns (shard: Shard)
      requires |coeffs| == |surviving| && EqualLength(surviving, |surviving|, len)
      ensures |shard| == len
      ensures forall p :: 0 <= p < len ==> shard[p] == Dot(coeffs, Across(surviving, len, p), |surviving|)
    {
      hide Mul, Add;
      var rebuilt := new bv8[len](_ => 0);
      for j := 0 to |surviving|
        invariant forall p :: 0 <= p < len ==> rebuilt[p] == Dot(coeffs, Across(surviving, len, p), j)
      {
        var coeff := coeffs[j];
        if coeff == 0 {
          forall p | 0 <= p < len ensures rebuilt[p] == Dot(coeffs, Across(surviving, len, p), j + 1) {
            MulZero(surviving[j][p]);
            AddLaws(rebuilt[p], 0, 0);
          }
          continue;
        }
        for pos := 0 to len
          invariant forall p :: 0 <= p < len ==>
            rebuilt[p] == Dot(coeffs, Across(surviving, len, p), if p < pos then j + 1 else j)
        {
          rebuilt[pos] := Add(rebuilt[pos], Mul(coeff, surviving[j][pos]));
        }
      }
      shard := rebuilt[..];
    }

    method Rebuild(mi: nat, inv: Matrix, surviving: seq<Shard>, len: nat) returns (shard: Shard)
      requires Valid() && mi < k + m && inv.Valid() && inv.rows == inv.cols == k && EqualLength(surviving, k, len)
      ensures shard == Encoded(matrix.Value(), Decoded(inv.Value(), surviving, len), len, mi)
    {
      hide Systematic, Mul, Add, Dot;
      var coeffs := Coefficients(mi, inv);
      shard := Weigh(coeffs, surviving, len);
      forall pos | 0 <= pos < len
        ensures shard[pos] == Encoded(matrix.Value(), Decoded(inv.Value(), surviving, len), len, mi)[pos]
      {
        RebuiltFits(matrix.Value()[mi], inv.Value(), surviving, len, coeffs, pos);
      }
    }

    method FillMissing(shards: array<Option<Shard>>, inv: Matrix, surviving: seq<Shard>, len: nat)
      requires Valid() && shards.Length == k + m && inv.Valid() && inv.rows == inv.cols == k
      requires EqualLength(surviving, k, len)
      requires matrix.data as object != shards && inv.data as object != shards
      modifies shards
      ensures forall i :: 0 <= i < k + m ==>
        shards[i] == if old(shards[i]).Some? then old(shards[i])
                     else Some(Encoded(matrix.Value(), Decoded(inv.Value(), surviving, len), len, i))
    {
      hide Systematic, Encoded, Decoded;
      var missing := IndicesOf(shards, false);
      hide Indices;
      ghost var before, enc, b := shards[..], matrix.Value(), inv.Value();
      ghost var data := Decoded(b, surviving, len);
      for j := 0 to |missing|
        invariant Valid() && matrix.Value() == enc && inv.Value() == b
        invariant forall i :: 0 <= i < k + m && before[i].Some? ==> shards[i] == before[i]
        invariant forall q :: 0 <= q < j ==> shards[missing[q]] == Some(Encoded(enc, data, len, missing[q]))
      {
        var rebuilt := Rebuild(missing[j], inv, surviving, len);
        shards[missing[j]] := Some(rebuilt);
      }
    }

    /** Rebuilds the missing shards in place from the first k survivors. */
    method Reconstruct(shards: array<Option<Shard>>) returns (outcome: Outcome)
      requires Valid() && matrix.data as object != shards
      modifies shards
      ensures outcome == Expected(old(shards[..]), k, m)
      ensures outcome != Ok ==> shards[..] == old(shards[..])
      ensures outcome == Ok ==> exists data: seq<Shard>, len: nat ::
        EqualLength(data, k, len) && Filled(matrix.Value(), k, m, old(shards[..]), shards[..], data, len)
    {
      hide Systematic, Encoded, Decoded, Inverses, TrivialKernel;
      ghost var before := shards[..];
      var survivors, surviving, len;
      outcome, survivors, surviving, len := Examine(shards);
      if outcome != Ok {
        return;
      }
      var sub := CopyRows(matrix, survivors);
      SystematicRowsIndependent(matrix.Value(), k, m, survivors);
      var inverted := sub.Invert();
      if inverted.None? {
        return InconsistentShards;
      }
      var inv := inverted.value;
      ghost var enc, b := matrix.Value(), inv.Value();
      ghost var data := Decoded(b, surviving, len);
      forall i | 0 <= i < k ensures before[survivors[i]].value == Encoded(enc, data, len, survivors[i]) {
        DecodedFitsSurvivors(enc, k, survivors, b, surviving, len, i);
      }
      FillMissing(shards, inv, surviving, len);
      assert Filled(enc, k, m, before, shards[..], data, len);
    }
  }
}
