/** Dense matrices stored row by row in one buffer, updated in place. */
module Matrices {
  import opened Bytes
  import opened Gf
  import opened Linear

  class Matrix {
    const rows: nat
    const cols: nat
    const data: array<bv8>

    ghost predicate Valid() {
      data.Length == rows * cols
    }

    static lemma {:induction false} IndexInRange(rows: nat, cols: nat, r: nat, c: nat)
      requires r < rows && c < cols
      ensures 0 <= r * cols + c < rows * cols
    {
      assert r * cols + cols == (r + 1) * cols <= rows * cols;
    }

    static lemma {:induction false} IndexInjective(cols: nat, r: nat, c: nat, r': nat, c': nat)
      requires c < cols && c' < cols && r * cols + c == r' * cols + c'
      ensures r == r' && c == c'
    {
      if r < r' { RowsApart(cols, r, r'); } else if r' < r { RowsApart(cols, r', r); }
    }

    static lemma {:induction false} RowsApart(cols: nat, r: nat, r': nat)
      requires r < r'
      ensures r * cols + cols <= r' * cols
    {
      assert (r + 1) * cols <= r' * cols;
    }

    function Get(r: nat, c: nat): bv8
      requires Valid() && r < rows && c < cols
      reads data
    {
      IndexInRange(rows, cols, r, c);
      data[r * cols + c]
    }

    ghost function Row(r: nat): (v: Vec)
      requires Valid() && r < rows
      reads data
      ensures |v| == cols && forall c :: 0 <= c < cols ==> v[c] == Get(r, c)
    {
      seq(cols, c requires 0 <= c < cols reads data => Get(r, c))
    }

    /** The matrix as a value. */
    ghost function Value(): (m: Mat)
      requires Valid()
      reads data
      ensures Shaped(m, rows, cols)
      ensures forall r, c :: 0 <= r < rows && 0 <= c < cols ==> m[r][c] == Get(r, c)
    {
      seq(rows, r requires 0 <= r < rows reads data => Row(r))
    }

    lemma {:induction false} Matches(m: Mat)
      requires Valid() && Shaped(m, rows, cols)
      requires forall r, c :: 0 <= r < rows && 0 <= c < cols ==> Get(r, c) == m[r][c]
      ensures Value() == m
    {
      forall r | 0 <= r < rows ensures Value()[r] == m[r] {
        assert forall c :: 0 <= c < cols ==> Value()[r][c] == m[r][c];
      }
    }

    constructor (rows: nat, cols: nat)
      ensures Valid() && fresh(data) && this.rows == rows && this.cols == cols
      ensures forall r, c :: 0 <= r < rows && 0 <= c < cols ==> Get(r, c) == 0
    {
      this.rows, this.cols := rows, cols;
      data := new bv8[rows * cols](_ => 0);
      new;
      forall r: nat, c: nat | r < rows && c < cols ensures Get(r, c) == 0 {
        IndexInRange(rows, cols, r, c);
      }
    }

    method Set(r: nat, c: nat, v: bv8)
      requires Valid() && r < rows && c < cols
      modifies data
      ensures forall r', c' :: 0 <= r' < rows && 0 <= c' < cols ==>
                Get(r', c') == if r' == r && c' == c then v else old(Get(r', c'))
    {
      IndexInRange(rows, cols, r, c);
      data[r * cols + c] := v;
      forall r': nat, c': nat | r' < rows && c' < cols
        ensures Get(r', c') == if r' == r && c' == c then v else old(Get(r', c'))
      {
        IndexInRange(rows, cols, r', c');
        if r' * cols + c' == r * cols + c { IndexInjective(cols, r, c, r', c'); }
      }
    }

    method SwapInPlace(i: nat, j: nat)
      requires Valid() && i < rows && j < rows && i != j
      modifies data
      ensures Value() == SwapRows(old(Value()), i, j)
    {
      ghost var m := Value();
      for c := 0 to cols
        invariant forall q, p :: 0 <= q < rows && 0 <= p < cols ==>
          Get(q, p) == if p < c && q == i then m[j][p] else if p < c && q == j then m[i][p] else m[q][p]
      {
        var tmp := Get(i, c);
        Set(i, c, Get(j, c));
        Set(j, c, tmp);
      }
      Matches(SwapRows(m, i, j));
    }

    method ScaleInPlace(i: nat, f: bv8)
      requires Valid() && i < rows
      modifies data
      ensures Value() == ScaleRow(old(Value()), i, f)
    {
      hide Mul;
      ghost var m := Value();
      for c := 0 to cols
        invariant forall q, p :: 0 <= q < rows && 0 <= p < cols ==>
          Get(q, p) == if p < c && q == i then Mul(f, m[q][p]) else m[q][p]
      {
        MulCommutes(Get(i, c), f);
        Set(i, c, Mul(Get(i, c), f));
      }
      Matches(ScaleRow(m, i, f));
    }

    method AddInPlace(i: nat, f: bv8, j: nat)
      requires Valid() && i < rows && j < rows && i != j
      modifies data
      ensures Value() == AddRow(old(Value()), i, f, j)
    {
      hide Add, Mul;
      ghost var m := Value();
      for c := 0 to cols
        invariant forall q, p :: 0 <= q < rows && 0 <= p < cols ==>
          Get(q, p) == if p < c && q == i then Add(m[q][p], Mul(f, m[j][p])) else m[q][p]
      {
        Set(i, c, Add(Get(i, c), Mul(f, Get(j, c))));
      }
      Matches(AddRow(m, i, f, j));
    }

    static method NewIdentity(n: nat) returns (out: Matrix)
      ensures fresh(out) && fresh(out.data) && out.Valid() && out.rows == n && out.cols == n
      ensures out.Value() == Identity(n)
    {
      out := new Matrix(n, n);
      for i := 0 to n
        invariant forall r, c :: 0 <= r < n && 0 <= c < n ==>
          out.Get(r, c) == if r == c && r < i then 1 else 0
      {
        out.Set(i, i, 1);
      }
      out.Matches(Identity(n));
    }

    method Multiply(other: Matrix) returns (out: Matrix)
      requires Valid() && other.Valid() && cols == other.rows
      ensures fresh(out) && fresh(out.data) && out.Valid() && out.rows == rows && out.cols == other.cols
      ensures out.Value() == Times(Value(), other.Value(), other.cols)
    {
      hide Add, Mul;
      ghost var a, b := Value(), other.Value();
      ghost var product := Times(a, b, other.cols);
      out := new Matrix(rows, other.cols);
      for r := 0 to rows
        invariant fresh(out.data) && Value() == a && other.Value() == b
        invariant forall q, p :: 0 <= q < r && 0 <= p < other.cols ==> out.Get(q, p) == product[q][p]
      {
        for c := 0 to other.cols
          invariant fresh(out.data) && Value() == a && other.Value() == b
          invariant forall q, p :: 0 <= q < rows && 0 <= p < other.cols && (q < r || (q == r && p < c)) ==>
            out.Get(q, p) == product[q][p]
        {
          var acc := 0;
          ghost var column := Column(b, other.cols, c);
          for k := 0 to cols
            invariant acc == Dot(a[r], column, k)
          {
            acc := Add(acc, Mul(Get(r, k), other.Get(k, c)));
          }
          out.Set(r, c, acc);
        }
      }
      out.Matches(product);
    }

    /** [A | I] */
    method Augmented() returns (aug: Matrix)
      requires Valid() && rows == cols
      ensures fresh(aug) && fresh(aug.data) && aug.Valid() && aug.rows == rows && aug.cols == 2 * rows
      ensures aug.Value() == Augment(Value())
    {
      var n := rows;
      ghost var a := Value();
      aug := new Matrix(n, 2 * n);
      for r := 0 to n
        invariant fresh(aug.data) && Value() == a
        invariant forall q, p :: 0 <= q < n && 0 <= p < 2 * n ==>
          aug.Get(q, p) == if q < r then Augment(a)[q][p] else 0
      {
        for c := 0 to n
          invariant fresh(aug.data) && Value() == a
          invariant forall q, p :: 0 <= q < n && 0 <= p < 2 * n ==>
            aug.Get(q, p) == if q < r then Augment(a)[q][p] else if q == r && p < c then a[q][p] else 0
        {
          aug.Set(r, c, Get(r, c));
        }
        aug.Set(r, n + r, 1);
      }
      aug.Matches(Augment(a));
    }

    method FindPivot(col: nat) returns (pivot: Option<nat>)
      requires Valid() && col < rows && col < cols
      ensures match pivot
        case Some(p) => col <= p < rows && Value()[p][col] != 0 && forall r :: col <= r < p ==> Value()[r][col] == 0
        case None => forall r :: col <= r < rows ==> Value()[r][col] == 0
    {
      for r := col to rows
        invariant forall q :: col <= q < r ==> Value()[q][col] == 0
      {
        if Get(r, col) != 0 {
          return Some(r);
        }
      }
      return None;
    }

    /** Moves the pivot row into place and divides it by the pivot. */
    method BringPivot(col: nat, pivot: nat)
      requires Valid() && col <= pivot < rows && col < cols
      requires Reduced(Value(), cols, col) && Value()[pivot][col] != 0
      modifies data
      ensures Reduced(Value(), cols, col) && Value()[col][col] == 1
      ensures SameKernel(Value(), old(Value()), cols)
    {
      ghost var start := Value();
      if pivot != col {
        SwapKeepsReduced(start, cols, col, pivot);
        forall z: Vec | |z| == cols ensures InKernel(SwapRows(start, col, pivot), z) <==> InKernel(start, z) {
          SwapRowsKernel(start, col, pivot, z);
        }
        SwapInPlace(col, pivot);
      }
      var f := Inv(Get(col, col));
      ghost var m := Value();
      ScaleKeepsReduced(m, cols, col);
      MulInverse(m[col][col]);
      forall z: Vec | |z| == cols ensures InKernel(ScaleRow(m, col, f), z) <==> InKernel(m, z) {
        ScaleRowKernel(m, col, f, z);
      }
      ScaleInPlace(col, f);
    }

    /** Clears column `col` in every row but the pivot row, whose pivot is 1. */
    method ClearColumn(col: nat)
      requires Valid() && col < rows && col < cols
      requires Reduced(Value(), cols, col) && Value()[col][col] == 1
      modifies data
      ensures Reduced(Value(), cols, col + 1)
      ensures SameKernel(Value(), old(Value()), cols)
    {
      hide SameKernel, Plus, Scale;
      ghost var start := Value();
      assert SameKernel(start, start, cols) by { SameKernelReflexive(start, cols); }
      for r := 0 to rows
        invariant Reduced(Value(), cols, col) && Value()[col][col] == 1
        invariant forall q :: 0 <= q < r && q != col ==> Value()[q][col] == 0
        invariant SameKernel(Value(), start, cols)
      {
        if r == col {
          continue;
        }
        var factor := Get(r, col);
        if factor == 0 {
          continue;
        }
        ghost var m := Value();
        ClearKeepsReduced(m, cols, col, r);
        ClearKeepsKernel(m, start, cols, r, factor, col);
        AddInPlace(r, factor, col);
      }
    }

    /** Gauss-Jordan inversion: an inverse on both sides, or a proof that there is none. */
    method Invert() returns (result: Option<Matrix>)
      requires Valid()
      ensures rows != cols ==> result.None?
      ensures rows == cols && result.None? ==> !TrivialKernel(Value(), rows)
      ensures result.Some? ==>
        && fresh(result.value) && fresh(result.value.data) && result.value.Valid()
        && result.value.rows == rows && result.value.cols == rows
        && Inverses(Value(), result.value.Value())
    {
      if rows != cols {
        return None;
      }
      var n := rows;
      ghost var a := Value();
      var aug := Augmented();
      for col := 0 to n
        invariant fresh(aug) && fresh(aug.data) && Value() == a
        invariant Reduced(aug.Value(), 2 * n, col)
        invariant SameKernel(aug.Value(), Augment(a), 2 * n)
      {
        var found := aug.FindPivot(col);
        if found.None? {
          NoPivotDependency(a, aug.Value(), col);
          return None;
        }
        var pivot := found.value;
        aug.BringPivot(col, pivot);
        aug.ClearColumn(col);
      }
      EliminationInverts(a, aug.Value());
      var out := aug.RightHalfOf(n);
      return Some(out);
    }

    method RightHalfOf(n: nat) returns (out: Matrix)
      requires Valid() && rows == n && cols == 2 * n
      ensures fresh(out) && fresh(out.data) && out.Valid() && out.rows == n && out.cols == n
      ensures out.Value() == RightHalf(Value(), n)
    {
      ghost var m := Value();
      out := new Matrix(n, n);
      for r := 0 to n
        invariant fresh(out.data) && Value() == m
        invariant forall q, p :: 0 <= q < r && 0 <= p < n ==> out.Get(q, p) == m[q][n + p]
      {
        for c := 0 to n
          invariant fresh(out.data) && Value() == m
          invariant forall q, p :: 0 <= q < n && 0 <= p < n && (q < r || (q == r && p < c)) ==>
            out.Get(q, p) == m[q][n + p]
        {
          out.Set(r, c, Get(r, n + c));
        }
      }
      out.Matches(RightHalf(m, n));
    }
  }
}
