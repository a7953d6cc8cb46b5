/** Vectors and matrices over GF(2^8), as values. */
module Linear {
  import opened Gf

  type Vec = seq<bv8>
  type Mat = seq<Vec>

  ghost predicate Shaped(m: Mat, rows: nat, cols: nat) {
    |m| == rows && forall r :: 0 <= r < rows ==> |m[r]| == cols
  }

  /** The first n products of two vectors, summed from the left. */
  function Dot(u: Vec, v: Vec, n: nat): bv8
    requires n <= |u| && n <= |v|
  {
    if n == 0 then 0 else Add(Dot(u, v, n - 1), Mul(u[n - 1], v[n - 1]))
  }

  function Plus(u: Vec, v: Vec): Vec
    requires |u| == |v|
  {
    seq(|u|, i requires 0 <= i < |u| => Add(u[i], v[i]))
  }

  function Scale(f: bv8, v: Vec): Vec {
    seq(|v|, i requires 0 <= i < |v| => Mul(f, v[i]))
  }

  function Zeros(n: nat): Vec {
    seq(n, _ => 0)
  }

  function Unit(n: nat, j: nat): Vec {
    seq(n, i => if i == j then 1 else 0)
  }

  function Identity(n: nat): Mat {
    seq(n, r requires 0 <= r < n => Unit(n, r))
  }

  function Column(m: Mat, cols: nat, c: nat): Vec
    requires Shaped(m, |m|, cols) && c < cols
  {
    seq(|m|, r requires 0 <= r < |m| => m[r][c])
  }

  /** Matrix times column vector. */
  function Apply(m: Mat, x: Vec): Vec
    requires Shaped(m, |m|, |x|)
  {
    seq(|m|, r requires 0 <= r < |m| => Dot(m[r], x, |x|))
  }

  function Times(a: Mat, b: Mat, cols: nat): Mat
    requires Shaped(a, |a|, |b|) && Shaped(b, |b|, cols)
  {
    seq(|a|, r requires 0 <= r < |a| =>
      seq(cols, c requires 0 <= c < cols => Dot(a[r], Column(b, cols, c), |b|)))
  }

  ghost predicate InKernel(m: Mat, x: Vec)
    requires Shaped(m, |m|, |x|)
  {
    forall r :: 0 <= r < |m| ==> Dot(m[r], x, |x|) == 0
  }

  ghost predicate TrivialKernel(m: Mat, cols: nat)
    requires Shaped(m, |m|, cols)
  {
    forall x: Vec :: |x| == cols && InKernel(m, x) ==> x == Zeros(cols)
  }

  // ----- the inner product is bilinear

  lemma {:induction false} DotPlus(u: Vec, v: Vec, x: Vec, n: nat)
    requires |u| == |v| && n <= |u| && n <= |x|
    ensures Dot(Plus(u, v), x, n) == Add(Dot(u, x, n), Dot(v, x, n))
  {
    hide Add, Mul;
    if n == 0 {
      AddLaws(0, 0, 0);
    } else {
      DotPlus(u, v, x, n - 1);
      MulAddLeft(u[n - 1], v[n - 1], x[n - 1]);
      AddExchange(Dot(u, x, n - 1), Dot(v, x, n - 1), Mul(u[n - 1], x[n - 1]), Mul(v[n - 1], x[n - 1]));
    }
  }

  lemma {:induction false} DotScale(f: bv8, u: Vec, x: Vec, n: nat)
    requires n <= |u| && n <= |x|
    ensures Dot(Scale(f, u), x, n) == Mul(f, Dot(u, x, n))
  {
    hide Add, Mul;
    if n == 0 {
      MulZero(f);
    } else {
      DotScale(f, u, x, n - 1);
      MulAssociates(f, u[n - 1], x[n - 1]);
      MulAddRight(f, Dot(u, x, n - 1), Mul(u[n - 1], x[n - 1]));
    }
  }

  lemma {:induction false} DotPlusRight(u: Vec, x: Vec, y: Vec, n: nat)
    requires |x| == |y| && n <= |u| && n <= |x|
    ensures Dot(u, Plus(x, y), n) == Add(Dot(u, x, n), Dot(u, y, n))
  {
    hide Add, Mul;
    if n == 0 {
      AddLaws(0, 0, 0);
    } else {
      DotPlusRight(u, x, y, n - 1);
      MulAddRight(u[n - 1], x[n - 1], y[n - 1]);
      AddExchange(Dot(u, x, n - 1), Dot(u, y, n - 1), Mul(u[n - 1], x[n - 1]), Mul(u[n - 1], y[n - 1]));
    }
  }

  lemma {:induction false} DotUnit(u: Vec, j: nat, n: nat)
    requires n <= |u|
    ensures Dot(u, Unit(|u|, j), n) == if j < n then u[j] else 0
    ensures Dot(Unit(|u|, j), u, n) == if j < n then u[j] else 0
  {
    hide Add, Mul;
    if n > 0 {
      DotUnit(u, j, n - 1);
      MulZero(u[n - 1]);
      MulOne(u[n - 1]);
      AddLaws(u[n - 1], 0, 0);
      AddLaws(Dot(u, Unit(|u|, j), n - 1), 0, 0);
      AddLaws(Dot(Unit(|u|, j), u, n - 1), 0, 0);
    }
  }

  lemma {:induction false} DotZeros(u: Vec, n: nat, m: nat)
    requires n <= |u| && n <= m
    ensures Dot(u, Zeros(m), n) == 0 && Dot(Zeros(m), u, n) == 0
  {
    hide Add, Mul;
    if n > 0 {
      DotZeros(u, n - 1, m);
      MulZero(u[n - 1]);
      AddLaws(0, 0, 0);
    }
  }

  /** The inner product only reads the first n entries. */
  lemma {:induction false} DotPrefix(u: Vec, v: Vec, x: Vec, y: Vec, n: nat)
    requires n <= |u| && n <= |v| && n <= |x| && n <= |y|
    requires forall i :: 0 <= i < n ==> u[i] == v[i] && x[i] == y[i]
    ensures Dot(u, x, n) == Dot(v, y, n)
  {
    hide Add, Mul;
    if n > 0 { DotPrefix(u, v, x, y, n - 1); }
  }

  lemma {:induction false} DotConcat(u: Vec, v: Vec, x: Vec, y: Vec, n: nat)
    requires |u| == |x| && n <= |v| && n <= |y|
    ensures Dot(u + v, x + y, |u| + n) == Add(Dot(u, x, |u|), Dot(v, y, n))
  {
    hide Add, Mul;
    if n == 0 {
      DotPrefix(u + v, u, x + y, x, |u|);
      AddLaws(Dot(u, x, |u|), 0, 0);
    } else {
      DotConcat(u, v, x, y, n - 1);
      AddLaws(Dot(u, x, |u|), Dot(v, y, n - 1), Mul(v[n - 1], y[n - 1]));
    }
  }

  // ----- products of matrices act by composition

  /** The combination of the first n rows of b with the weights in w. */
  function Combine(w: Vec, b: Mat, cols: nat, n: nat): Vec
    requires n <= |w| && n <= |b| && Shaped(b, |b|, cols)
    ensures |Combine(w, b, cols, n)| == cols
  {
    if n == 0 then Zeros(cols) else Plus(Combine(w, b, cols, n - 1), Scale(w[n - 1], b[n - 1]))
  }

  lemma {:induction false} CombineEntry(w: Vec, b: Mat, cols: nat, n: nat, c: nat)
    requires n <= |w| && n <= |b| && Shaped(b, |b|, cols) && c < cols
    ensures Combine(w, b, cols, n)[c] == Dot(w, Column(b, cols, c), n)
  {
    hide Add, Mul;
    if n > 0 { CombineEntry(w, b, cols, n - 1, c); }
  }

  lemma {:induction false} DotCombine(w: Vec, b: Mat, x: Vec, n: nat)
    requires n <= |w| && n <= |b| && Shaped(b, |b|, |x|)
    ensures Dot(Combine(w, b, |x|, n), x, |x|) == Dot(w, Apply(b, x), n)
  {
    hide Add, Mul;
    if n == 0 {
      DotZeros(x, |x|, |x|);
    } else {
      DotCombine(w, b, x, n - 1);
      DotPlus(Combine(w, b, |x|, n - 1), Scale(w[n - 1], b[n - 1]), x, |x|);
      DotScale(w[n - 1], b[n - 1], x, |x|);
    }
  }

  /** One row of a product, applied to x, is the row applied to the image of x. */
  lemma {:induction false} DotThrough(w: Vec, b: Mat, x: Vec, row: Vec)
    requires |w| == |b| && Shaped(b, |b|, |x|) && |row| == |x|
    requires forall c :: 0 <= c < |x| ==> row[c] == Dot(w, Column(b, |x|, c), |b|)
    ensures Dot(row, x, |x|) == Dot(w, Apply(b, x), |b|)
  {
    hide Add, Mul;
    forall c | 0 <= c < |x| ensures row[c] == Combine(w, b, |x|, |b|)[c] {
      CombineEntry(w, b, |x|, |b|, c);
    }
    assert row == Combine(w, b, |x|, |b|);
    DotCombine(w, b, x, |b|);
  }

  lemma {:induction false} ApplyTimes(a: Mat, b: Mat, x: Vec)
    requires Shaped(a, |a|, |b|) && Shaped(b, |b|, |x|)
    ensures Apply(Times(a, b, |x|), x) == Apply(a, Apply(b, x))
  {
    hide Add, Mul, Dot;
    forall r | 0 <= r < |a| ensures Apply(Times(a, b, |x|), x)[r] == Apply(a, Apply(b, x))[r] {
      DotThrough(a[r], b, x, Times(a, b, |x|)[r]);
    }
  }

  lemma {:induction false} ApplyIdentity(x: Vec)
    ensures Apply(Identity(|x|), x) == x
  {
    hide Add, Mul, Dot;
    forall r | 0 <= r < |x| ensures Apply(Identity(|x|), x)[r] == x[r] {
      DotUnit(x, r, |x|);
    }
  }

  // ----- elementary row operations keep the kernel

  function SwapRows(m: Mat, i: nat, j: nat): Mat
    requires i < |m| && j < |m|
  {
    m[i := m[j]][j := m[i]]
  }

  function ScaleRow(m: Mat, i: nat, f: bv8): Mat
    requires i < |m|
  {
    m[i := Scale(f, m[i])]
  }

  /** Row i plus f times row j. */
  function AddRow(m: Mat, i: nat, f: bv8, j: nat): Mat
    requires i < |m| && j < |m| && |m[i]| == |m[j]|
  {
    m[i := Plus(m[i], Scale(f, m[j]))]
  }

  lemma {:induction false} SwapRowsKernel(m: Mat, i: nat, j: nat, x: Vec)
    requires Shaped(m, |m|, |x|) && i < |m| && j < |m|
    ensures InKernel(SwapRows(m, i, j), x) <==> InKernel(m, x)
  {
    hide Add, Mul, Dot;
    var s := SwapRows(m, i, j);
    assert s[i] == m[j] && s[j] == m[i];
    assert forall r :: 0 <= r < |m| && r != i && r != j ==> s[r] == m[r];
    if InKernel(s, x) {
      forall r | 0 <= r < |m| ensures Dot(m[r], x, |x|) == 0 {
        var q := if r == i then j else if r == j then i else r;
        assert m[r] == s[q];
      }
    }
  }

  lemma {:induction false} ScaleRowKernel(m: Mat, i: nat, f: bv8, x: Vec)
    requires Shaped(m, |m|, |x|) && i < |m| && f != 0
    ensures InKernel(ScaleRow(m, i, f), x) <==> InKernel(m, x)
  {
    hide Add, Mul, Dot;
    DotScale(f, m[i], x, |x|);
    MulZero(f);
    NoZeroDivisors(f, Dot(m[i], x, |x|));
    var s := ScaleRow(m, i, f);
    assert s[i] == Scale(f, m[i]);
    assert forall r :: 0 <= r < |m| && r != i ==> s[r] == m[r];
  }

  lemma {:induction false} AddRowKernel(m: Mat, i: nat, f: bv8, j: nat, x: Vec)
    requires Shaped(m, |m|, |x|) && i < |m| && j < |m| && i != j
    ensures InKernel(AddRow(m, i, f, j), x) <==> InKernel(m, x)
  {
    hide Add, Mul, Dot;
    DotPlus(m[i], Scale(f, m[j]), x, |x|);
    DotScale(f, m[j], x, |x|);
    MulZero(f);
    AddLaws(Dot(m[i], x, |x|), 0, 0);
    var s := AddRow(m, i, f, j);
    assert s[i] == Plus(m[i], Scale(f, m[j])) && s[j] == m[j];
    assert forall r :: 0 <= r < |m| && r != i ==> s[r] == m[r];
  }

  lemma {:induction false} NoZeroDivisors(a: bv8, b: bv8)
    requires a != 0
    ensures Mul(a, b) == 0 ==> b == 0
  {
    if b != 0 { MulByLogs(a, b); }
  }

  // ----- Gauss-Jordan elimination

  ghost predicate SameKernel(a: Mat, b: Mat, cols: nat)
    requires Shaped(a, |a|, cols) && Shaped(b, |b|, cols)
  {
    forall z: Vec :: |z| == cols ==> (InKernel(a, z) <==> InKernel(b, z))
  }

  /** The first `done` columns are those of the identity. */
  ghost predicate Reduced(m: Mat, cols: nat, done: nat)
    requires Shaped(m, |m|, cols) && done <= cols
  {
    forall r, c :: 0 <= r < |m| && 0 <= c < done ==> m[r][c] == if r == c then 1 else 0
  }

  function Augment(a: Mat): Mat {
    seq(|a|, r requires 0 <= r < |a| => a[r] + Unit(|a|, r))
  }

  function RightHalf(m: Mat, n: nat): Mat
    requires Shaped(m, n, 2 * n)
  {
    seq(n, r requires 0 <= r < n => m[r][n..])
  }

  /** What [A | I] annihilates: the pairs (x, A x). */
  lemma {:induction false} AugmentKernel(a: Mat, x: Vec, y: Vec)
    requires Shaped(a, |a|, |a|) && |x| == |y| == |a|
    ensures InKernel(Augment(a), x + y) <==> Apply(a, x) == y
  {
    hide Add, Mul, Dot;
    var n := |a|;
    forall r | 0 <= r < n ensures Dot(Augment(a)[r], x + y, 2 * n) == Add(Dot(a[r], x, n), y[r]) {
      DotConcat(a[r], Unit(n, r), x, y, n);
      DotUnit(y, r, n);
    }
    forall r | 0 <= r < n ensures Dot(Augment(a)[r], x + y, 2 * n) == 0 <==> Apply(a, x)[r] == y[r] {
      AddIsZero(Dot(a[r], x, n), y[r]);
    }
  }

  lemma {:induction false} AddIsZero(a: bv8, b: bv8)
    ensures Add(a, b) == 0 <==> a == b
  {
  }

  /** What [I | B] annihilates: the pairs (B y, y). */
  lemma {:induction false} ReducedKernel(m: Mat, n: nat, x: Vec, y: Vec)
    requires Shaped(m, n, 2 * n) && Reduced(m, 2 * n, n) && |x| == |y| == n
    ensures InKernel(m, x + y) <==> x == Apply(RightHalf(m, n), y)
  {
    hide Add, Mul, Dot;
    var b := RightHalf(m, n);
    forall r | 0 <= r < n ensures Dot(m[r], x + y, 2 * n) == Add(x[r], Dot(b[r], y, n)) {
      assert m[r] == Unit(n, r) + b[r];
      DotConcat(Unit(n, r), b[r], x, y, n);
      DotUnit(x, r, n);
    }
    forall r | 0 <= r < n ensures Dot(m[r], x + y, 2 * n) == 0 <==> x[r] == Apply(b, y)[r] {
      AddIsZero(x[r], Dot(b[r], y, n));
    }
  }

  ghost predicate Inverses(a: Mat, b: Mat) {
    && Shaped(a, |a|, |a|) && Shaped(b, |a|, |a|)
    && Times(a, b, |a|) == Identity(|a|) && Times(b, a, |a|) == Identity(|a|)
  }

  lemma {:induction false} ColumnIsImage(m: Mat, j: nat)
    requires Shaped(m, |m|, |m|) && j < |m|
    ensures Apply(m, Unit(|m|, j)) == Column(m, |m|, j)
  {
    hide Add, Mul, Dot;
    forall r | 0 <= r < |m| ensures Dot(m[r], Unit(|m|, j), |m|) == m[r][j] {
      DotUnit(m[r], j, |m|);
    }
  }

  /** Elimination that reaches [I | B] from [A | I] without changing the kernel has inverted A. */
  lemma {:induction false} EliminationInverts(a: Mat, m: Mat)
    requires Shaped(a, |a|, |a|) && Shaped(m, |a|, 2 * |a|)
    requires Reduced(m, 2 * |a|, |a|) && SameKernel(m, Augment(a), 2 * |a|)
    ensures Inverses(a, RightHalf(m, |a|))
  {
    hide Add, Mul, Dot;
    var n, b := |a|, RightHalf(m, |a|);
    forall r, j | 0 <= r < n && 0 <= j < n
      ensures Times(a, b, n)[r][j] == Identity(n)[r][j] && Times(b, a, n)[r][j] == Identity(n)[r][j]
    {
      ColumnIsImage(a, j);
      ColumnIsImage(b, j);
      var e, x, y := Unit(n, j), Column(b, n, j), Column(a, n, j);
      ReducedKernel(m, n, x, e);
      AugmentKernel(a, x, e);
      AugmentKernel(a, e, y);
      ReducedKernel(m, n, e, y);
      assert Apply(a, x)[r] == e[r] && e[r] == Apply(b, y)[r];
    }
    assert forall r :: 0 <= r < n ==> Times(a, b, n)[r] == Identity(n)[r];
    assert forall r :: 0 <= r < n ==> Times(b, a, n)[r] == Identity(n)[r];
  }

  /** The vector a missing pivot in column `col` leaves in the kernel. */
  function Dependency(m: Mat, n: nat, col: nat): Vec
    requires Shaped(m, n, 2 * n) && col < n
  {
    seq(n, i requires 0 <= i < n => if i < col then m[i][col] else if i == col then 1 else 0)
  }

  lemma {:induction false} DependencyDot(m: Mat, n: nat, col: nat, r: nat, k: nat)
    requires Shaped(m, n, 2 * n) && col < n && r < n && k <= n && Reduced(m, 2 * n, col)
    requires forall i :: col <= i < n ==> m[i][col] == 0
    ensures Dot(m[r], Dependency(m, n, col) + Zeros(n), k) ==
            if k <= col && r < k then m[r][col] else 0
  {
    hide Add, Mul;
    if k > 0 {
      DependencyDot(m, n, col, r, k - 1);
      var d := Dependency(m, n, col)[k - 1];
      MulOne(d); MulZero(d); MulOne(m[r][k - 1]); MulZero(m[r][k - 1]);
      AddLaws(d, 0, 0); AddLaws(0, d, 0); AddLaws(m[r][col], m[r][col], 0);
    }
  }

  lemma {:induction false} DotIgnoresZeros(u: Vec, x: Vec, n: nat, k: nat)
    requires |x| <= |u| && k <= n && |x| + k <= |u|
    ensures Dot(u, x + Zeros(n), |x| + k) == Dot(u, x, |x|)
  {
    hide Add, Mul;
    if k == 0 {
      DotPrefix(u, u, x + Zeros(n), x, |x|);
    } else {
      DotIgnoresZeros(u, x, n, k - 1);
      MulZero(u[|x| + k - 1]);
      AddLaws(Dot(u, x, |x|), 0, 0);
    }
  }

  lemma {:induction false} DependencyKernel(m: Mat, n: nat, col: nat)
    requires Shaped(m, n, 2 * n) && col < n && Reduced(m, 2 * n, col)
    requires forall i :: col <= i < n ==> m[i][col] == 0
    ensures Dependency(m, n, col) != Zeros(n)
    ensures InKernel(m, Dependency(m, n, col) + Zeros(n))
  {
    hide Add, Mul, Dot;
    var x := Dependency(m, n, col);
    assert x[col] != Zeros(n)[col];
    forall r | 0 <= r < n ensures Dot(m[r], x + Zeros(n), 2 * n) == 0 {
      DependencyDot(m, n, col, r, n);
      DotIgnoresZeros(m[r], x, n, n);
      DotIgnoresZeros(m[r], x, n, 0);
    }
  }

  /** Elimination that finds no pivot has found a dependency between the columns of A. */
  lemma {:induction false} NoPivotDependency(a: Mat, m: Mat, col: nat)
    requires Shaped(a, |a|, |a|) && Shaped(m, |a|, 2 * |a|) && col < |a|
    requires Reduced(m, 2 * |a|, col) && SameKernel(m, Augment(a), 2 * |a|)
    requires forall i :: col <= i < |a| ==> m[i][col] == 0
    ensures !TrivialKernel(a, |a|)
  {
    hide Add, Mul, Dot;
    var n := |a|;
    var x, y := Dependency(m, n, col), Zeros(n);
    DependencyKernel(m, n, col);
    AugmentKernel(a, x, y);
    hide SameKernel, Augment, Dependency, Reduced;
    assert Apply(a, x) == y;
    assert InKernel(a, x) by {
      forall r | 0 <= r < n ensures Dot(a[r], x, n) == 0 {
        assert Apply(a, x)[r] == y[r];
      }
    }
  }

  /** An invertible matrix moves every nonzero vector, so the two outcomes of elimination exclude each other. */
  lemma {:induction false} InverseTrivialKernel(a: Mat, b: Mat)
    requires Inverses(a, b)
    ensures TrivialKernel(a, |a|)
  {
    hide Add, Mul, Dot;
    var n := |a|;
    forall x: Vec | |x| == n && InKernel(a, x) ensures x == Zeros(n) {
      assert Apply(a, x) == Zeros(n);
      ApplyTimes(b, a, x);
      ApplyIdentity(x);
      forall r | 0 <= r < n ensures x[r] == 0 {
        DotZeros(b[r], n, n);
        assert x[r] == Apply(b, Zeros(n))[r];
      }
    }
  }

  /** A matrix has at most one inverse. */
  lemma {:induction false} InverseUnique(a: Mat, b: Mat, c: Mat)
    requires Inverses(a, b) && Inverses(a, c)
    ensures b == c
  {
    hide Add, Mul, Dot;
    var n := |a|;
    forall r, j | 0 <= r < n && 0 <= j < n ensures b[r][j] == c[r][j] {
      var e := Unit(n, j);
      ColumnIsImage(b, j);
      ColumnIsImage(c, j);
      ApplyTimes(a, c, e);
      ApplyIdentity(e);
      ApplyTimes(b, a, Apply(c, e));
      ApplyIdentity(Apply(c, e));
      assert Column(b, n, j)[r] == Column(c, n, j)[r];
    }
    assert forall r :: 0 <= r < n ==> b[r] == c[r];
  }

  /** Swapping a pivot row up from below keeps the finished columns. */
  lemma {:induction false} SwapKeepsReduced(m: Mat, cols: nat, col: nat, pivot: nat)
    requires Shaped(m, |m|, cols) && col <= pivot < |m| && col < cols && Reduced(m, cols, col)
    ensures Reduced(SwapRows(m, col, pivot), cols, col)
  {
    var s := SwapRows(m, col, pivot);
    assert s[col] == m[pivot] && s[pivot] == m[col];
    assert forall r :: 0 <= r < |m| && r != col && r != pivot ==> s[r] == m[r];
  }

  /** Dividing the pivot row by its pivot keeps the finished columns and makes the pivot 1. */
  lemma {:induction false} ScaleKeepsReduced(m: Mat, cols: nat, col: nat)
    requires Shaped(m, |m|, cols) && col < |m| && col < cols && Reduced(m, cols, col)
    requires m[col][col] != 0
    ensures var s := ScaleRow(m, col, Inv(m[col][col]));
            Reduced(s, cols, col) && s[col][col] == 1
  {
    hide Mul, Inv;
    var f := Inv(m[col][col]);
    var s := ScaleRow(m, col, f);
    MulZero(f);
    MulInverse(m[col][col]);
    assert s[col] == Scale(f, m[col]);
    assert forall r :: 0 <= r < |m| && r != col ==> s[r] == m[r];
  }

  /** Clearing row r against a pivot row with pivot 1 keeps the finished columns. */
  lemma {:induction false} ClearKeepsReduced(m: Mat, cols: nat, col: nat, r: nat)
    requires Shaped(m, |m|, cols) && col < |m| && col < cols && Reduced(m, cols, col)
    requires r < |m| && r != col && m[col][col] == 1
    ensures var s := AddRow(m, r, m[r][col], col);
            Reduced(s, cols, col) && s[r][col] == 0
  {
    hide Mul, Add;
    var f := m[r][col];
    var s := AddRow(m, r, f, col);
    MulZero(f);
    MulOne(f);
    AddLaws(f, 0, 0);
    forall c | 0 <= c < col ensures s[r][c] == m[r][c] {
      AddLaws(m[r][c], 0, 0);
    }
    assert forall q :: 0 <= q < |m| && q != r ==> s[q] == m[q];
  }

  lemma {:induction false} SameKernelReflexive(m: Mat, cols: nat)
    requires Shaped(m, |m|, cols)
    ensures SameKernel(m, m, cols)
  {
  }

  lemma {:induction false} ClearKeepsKernel(m: Mat, start: Mat, cols: nat, r: nat, f: bv8, col: nat)
    requires Shaped(m, |m|, cols) && Shaped(start, |start|, cols) && r < |m| && col < |m| && r != col
    requires SameKernel(m, start, cols)
    ensures SameKernel(AddRow(m, r, f, col), start, cols)
  {
    hide Add, Mul, Dot, InKernel;
    forall z: Vec | |z| == cols ensures InKernel(AddRow(m, r, f, col), z) <==> InKernel(start, z) {
      AddRowKernel(m, r, f, col, z);
    }
  }
}
