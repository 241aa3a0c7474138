/** Gauss-Jordan inversion with partial pivoting, `CFloatMatrix::Inverse`, over exact reals. */
module Matrices {

  type Row = seq<real>
  type Matrix = seq<Row>

  ghost predicate Shape(m: Matrix, rows: nat, cols: nat) {
    |m| == rows && forall i :: 0 <= i < rows ==> |m[i]| == cols
  }

  function Dot(a: Row, b: Row): real
    requires |a| == |b|
  {
    if a == [] then 0.0 else a[0] * b[0] + Dot(a[1..], b[1..])
  }

  function Unit(n: nat, k: nat): Row {
    seq(n, i => if i == k then 1.0 else 0.0)
  }

  function Zero(n: nat): Row {
    seq(n, _ => 0.0)
  }

  function Negate(a: Row): Row {
    seq(|a|, i requires 0 <= i < |a| => -a[i])
  }

  function Column(m: Matrix, k: nat): Row
    requires forall i :: 0 <= i < |m| ==> k < |m[i]|
  {
    seq(|m|, i requires 0 <= i < |m| => m[i][k])
  }

  /** The product of a and b is the identity of size n. */
  ghost predicate ProductIsIdentity(a: Matrix, b: Matrix, n: nat) {
    && Shape(a, n, n) && Shape(b, n, n)
    && forall i: nat, j: nat :: i < n && j < n ==> Dot(a[i], Column(b, j)) == if i == j then 1.0 else 0.0
  }

  /** Some vector other than zero is mapped to zero. */
  ghost predicate Singular(a: Matrix, n: nat)
    requires Shape(a, n, n)
  {
    exists v: Row :: |v| == n && v != Zero(n) && Solves(a, v)
  }

  // ------------------------------------------------------------ dot products

  lemma {:induction false} DotAppend(a: Row, b: Row, u: Row, v: Row)
    requires |a| == |u| && |b| == |v|
    ensures Dot(a + b, u + v) == Dot(a, u) + Dot(b, v)
  {
    if a == [] {
      assert a + b == b && u + v == v;
    } else {
      assert (a + b)[1..] == a[1..] + b && (u + v)[1..] == u[1..] + v;
      DotAppend(a[1..], b, u[1..], v);
    }
  }

  lemma {:induction false} DotZero(a: Row, z: Row)
    requires |a| == |z| && forall i :: 0 <= i < |z| ==> z[i] == 0.0
    ensures Dot(a, z) == 0.0 && Dot(z, a) == 0.0
  {
    if a != [] { DotZero(a[1..], z[1..]); }
  }

  lemma {:induction false} DotUnit(a: Row, k: nat)
    requires k < |a|
    ensures Dot(a, Unit(|a|, k)) == a[k] && Dot(Unit(|a|, k), a) == a[k]
  {
    var u := Unit(|a|, k);
    if k == 0 {
      DotZero(a[1..], u[1..]);
    } else {
      assert u[1..] == Unit(|a[1..]|, k - 1);
      DotUnit(a[1..], k - 1);
    }
  }

  lemma {:induction false} DotNegate(a: Row, z: Row)
    requires |a| == |z|
    ensures Dot(a, Negate(z)) == -Dot(a, z)
  {
    if a != [] {
      assert Negate(z)[1..] == Negate(z[1..]);
      DotNegate(a[1..], z[1..]);
    }
  }

  function Divided(a: Row, p: real): Row
    requires p != 0.0
  {
    seq(|a|, i requires 0 <= i < |a| => a[i] / p)
  }

  function Reduced(a: Row, b: Row, f: real): Row
    requires |a| == |b|
  {
    seq(|a|, i requires 0 <= i < |a| => a[i] - b[i] * f)
  }

  lemma QuotientTimes(x: real, p: real)
    requires p != 0.0
    ensures x / p * p == x
  {
  }

  lemma Distribute(q: real, z: real, d: real, p: real)
    ensures (q * z + d) * p == q * p * z + d * p
  {
  }

  lemma {:induction false} DotDivided(a: Row, p: real, z: Row)
    requires |a| == |z| && p != 0.0
    ensures Dot(Divided(a, p), z) * p == Dot(a, z)
  {
    if a != [] {
      var q := Divided(a, p);
      assert q[1..] == Divided(a[1..], p);
      DotDivided(a[1..], p, z[1..]);
      QuotientTimes(a[0], p);
      Distribute(q[0], z[0], Dot(q[1..], z[1..]), p);
    }
  }

  lemma {:induction false} DotReduced(a: Row, b: Row, f: real, r: Row, z: Row)
    requires |a| == |b| == |r| == |z|
    requires forall i :: 0 <= i < |a| ==> r[i] == a[i] - b[i] * f
    ensures Dot(r, z) == Dot(a, z) - Dot(b, z) * f
  {
    if a != [] {
      DotReduced(a[1..], b[1..], f, r[1..], z[1..]);
      ReduceTerm(a[0], b[0], f, z[0], Dot(b[1..], z[1..]));
    }
  }

  lemma ReduceTerm(a: real, b: real, f: real, z: real, d: real)
    ensures (a - b * f) * z == a * z - b * z * f
    ensures (b * z + d) * f == b * z * f + d * f
  {
  }

  // ------------------------------------------------------------ row operations keep the solutions

  ghost predicate Solves(m: Matrix, z: Row) {
    forall i :: 0 <= i < |m| ==> |m[i]| == |z| && Dot(m[i], z) == 0.0
  }

  /** Both matrices map the same vectors to zero. */
  ghost predicate SameSolutions(m: Matrix, m': Matrix, width: nat) {
    forall z: Row :: |z| == width ==> (Solves(m, z) <==> Solves(m', z))
  }

  function Swapped(m: Matrix, i: nat, j: nat): Matrix
    requires i < |m| && j < |m|
  {
    m[i := m[j]][j := m[i]]
  }

  lemma SwapKeeps(m: Matrix, i: nat, j: nat, width: nat)
    requires i < |m| && j < |m| && Shape(m, |m|, width)
    ensures SameSolutions(m, Swapped(m, i, j), width) && Shape(Swapped(m, i, j), |m|, width)
  {
    var m' := Swapped(m, i, j);
    forall z: Row | |z| == width ensures Solves(m, z) <==> Solves(m', z) {
      if Solves(m', z) {
        forall k | 0 <= k < |m| ensures Dot(m[k], z) == 0.0 {
          assert m[k] == m'[if k == i then j else if k == j then i else k];
        }
      }
    }
  }

  lemma DivideKeeps(m: Matrix, i: nat, p: real, width: nat)
    requires i < |m| && p != 0.0 && Shape(m, |m|, width)
    ensures SameSolutions(m, m[i := Divided(m[i], p)], width) && Shape(m[i := Divided(m[i], p)], |m|, width)
  {
    var m' := m[i := Divided(m[i], p)];
    forall z: Row | |z| == width ensures Solves(m, z) <==> Solves(m', z) {
      DotDivided(m[i], p, z);
      hide Dot, Divided;
      assert Dot(m'[i], z) == 0.0 <==> Dot(m[i], z) == 0.0 by { ProductZero(Dot(m'[i], z), p); }
      assert forall k :: 0 <= k < |m| && k != i ==> m'[k] == m[k];
      if Solves(m', z) { assert forall k :: 0 <= k < |m| && k != i ==> |m'[k]| == |z| && Dot(m'[k], z) == 0.0; }
    }
  }

  lemma ProductZero(x: real, p: real)
    requires p != 0.0
    ensures x * p == 0.0 <==> x == 0.0
  {
  }

  lemma ReduceKeeps(m: Matrix, i: nat, j: nat, f: real, width: nat)
    requires i < |m| && j < |m| && i != j && Shape(m, |m|, width)
    ensures SameSolutions(m, m[i := Reduced(m[i], m[j], f)], width)
    ensures Shape(m[i := Reduced(m[i], m[j], f)], |m|, width)
  {
    var m' := m[i := Reduced(m[i], m[j], f)];
    forall z: Row | |z| == width ensures Solves(m, z) <==> Solves(m', z) {
      DotReduced(m[i], m[j], f, Reduced(m[i], m[j], f), z);
      hide Dot, Reduced;
      assert m'[j] == m[j];
      assert Dot(m[j], z) == 0.0 ==> Dot(m'[i], z) == Dot(m[i], z);
      assert forall k :: 0 <= k < |m| && k != i ==> m'[k] == m[k];
      if Solves(m', z) { assert forall k :: 0 <= k < |m| && k != i ==> |m'[k]| == |z| && Dot(m'[k], z) == 0.0; }
    }
  }

  // ------------------------------------------------------------ the augmented matrix

  /** The matrix with the identity to its right. */
  function Augmented(a: Matrix, n: nat): Matrix
    requires |a| == n
  {
    seq(n, i requires 0 <= i < n => a[i] + Unit(n, i))
  }

  /** The first c columns are columns of the identity. */
  ghost predicate UnitColumns(m: Matrix, n: nat, c: nat)
    requires Shape(m, n, 2 * n) && c <= n
  {
    forall i: nat, k: nat :: i < n && k < c ==> m[i][k] == if i == k then 1.0 else 0.0
  }

  /** The invariant of the elimination: row operations have turned [A | I] into m, and the first
      c columns are done. */
  ghost predicate Eliminated(a: Matrix, n: nat, m: Matrix, c: nat) {
    && |a| == n && Shape(a, n, n) && Shape(m, n, 2 * n) && c <= n
    && SameSolutions(Augmented(a, n), m, 2 * n) && UnitColumns(m, n, c)
  }

  lemma AugmentedDot(a: Matrix, n: nat, i: nat, u: Row, w: Row)
    requires Shape(a, n, n) && i < n && |u| == |w| == n
    ensures Dot(Augmented(a, n)[i], u + w) == Dot(a[i], u) + w[i]
  {
    DotAppend(a[i], Unit(n, i), u, w);
    DotUnit(w, i);
  }

  /** a maps u to minus w. */
  ghost predicate Maps(a: Matrix, n: nat, u: Row, w: Row)
    requires Shape(a, n, n) && |u| == |w| == n
  {
    forall i :: 0 <= i < n ==> Dot(a[i], u) == -w[i]
  }

  /** A pair of vectors solves [A | I] exactly when A maps the first to minus the second. */
  lemma AugmentedSolves(a: Matrix, n: nat, u: Row, w: Row)
    requires Shape(a, n, n) && |u| == |w| == n
    ensures Solves(Augmented(a, n), u + w) <==> Maps(a, n, u, w)
  {
    var m := Augmented(a, n);
    forall i | 0 <= i < n ensures Dot(m[i], u + w) == Dot(a[i], u) + w[i] && |m[i]| == |u + w| {
      AugmentedDot(a, n, i, u, w);
    }
    hide Dot, Augmented;
    if Maps(a, n, u, w) {
      assert Solves(m, u + w);
    }
    if Solves(m, u + w) {
      forall i | 0 <= i < n ensures Dot(a[i], u) == -w[i] { assert Dot(m[i], u + w) == 0.0; }
    }
  }

  /** The right half of the matrix. */
  function RightHalf(m: Matrix, n: nat): Matrix
    requires Shape(m, n, 2 * n)
  {
    seq(n, i requires 0 <= i < n => m[i][n..])
  }

  /** When all columns are done, m is [I | X]. */
  lemma DoneRow(a: Matrix, n: nat, m: Matrix, i: nat, u: Row, w: Row)
    requires Eliminated(a, n, m, n) && i < n && |u| == |w| == n
    ensures Dot(m[i], u + w) == u[i] + Dot(RightHalf(m, n)[i], w)
  {
    assert m[i][..n] == Unit(n, i);
    assert m[i] == m[i][..n] + m[i][n..];
    DotAppend(m[i][..n], m[i][n..], u, w);
    DotUnit(u, i);
  }

  /** With [A | I] turned into [I | X], A and X undo each other. */
  lemma DoneSolves(a: Matrix, n: nat, m: Matrix, u: Row, w: Row)
    requires Eliminated(a, n, m, n) && |u| == |w| == n
    ensures Maps(a, n, u, w) <==> Maps(RightHalf(m, n), n, w, u)
  {
    AugmentedSolves(a, n, u, w);
    var z := u + w;
    assert Solves(Augmented(a, n), z) <==> Solves(m, z);
    RightSolves(a, n, m, u, w);
  }

  lemma RightSolves(a: Matrix, n: nat, m: Matrix, u: Row, w: Row)
    requires Eliminated(a, n, m, n) && |u| == |w| == n
    ensures Solves(m, u + w) <==> Maps(RightHalf(m, n), n, w, u)
  {
    var z, x := u + w, RightHalf(m, n);
    forall i | 0 <= i < n ensures Dot(m[i], z) == u[i] + Dot(x[i], w) && |m[i]| == |z| {
      DoneRow(a, n, m, i, u, w);
    }
    hide Dot, Augmented, RightHalf, SameSolutions, UnitColumns;
    if Solves(m, z) {
      forall i | 0 <= i < n ensures Dot(x[i], w) == -u[i] { assert Dot(m[i], z) == 0.0; }
    }
    if Maps(x, n, w, u) {
      forall i | 0 <= i < n ensures Dot(m[i], z) == 0.0 { assert Dot(x[i], w) == -u[i]; }
    }
  }

  /** The right half is then an inverse on the left ... */
  lemma LeftInverse(a: Matrix, n: nat, m: Matrix)
    requires Eliminated(a, n, m, n)
    ensures ProductIsIdentity(RightHalf(m, n), a, n)
  {
    var x := RightHalf(m, n);
    forall i: nat, j: nat | i < n && j < n ensures Dot(x[i], Column(a, j)) == if i == j then 1.0 else 0.0 {
      var u, w := Unit(n, j), Negate(Column(a, j));
      forall k | 0 <= k < n ensures Dot(a[k], u) == -w[k] { DotUnit(a[k], j); }
      assert Maps(a, n, u, w);
      DoneSolves(a, n, m, u, w);
      assert Dot(x[i], w) == -u[i];
      DotNegate(x[i], Column(a, j));
    }
  }

  /** ... and on the right. */
  lemma RightInverse(a: Matrix, n: nat, m: Matrix)
    requires Eliminated(a, n, m, n)
    ensures ProductIsIdentity(a, RightHalf(m, n), n)
  {
    var x := RightHalf(m, n);
    forall i: nat, j: nat | i < n && j < n ensures Dot(a[i], Column(x, j)) == if i == j then 1.0 else 0.0 {
      var u, w := Column(x, j), Negate(Unit(n, j));
      forall k | 0 <= k < n ensures Dot(x[k], w) == -u[k] {
        DotUnit(x[k], j);
        DotNegate(x[k], Unit(n, j));
      }
      assert Maps(x, n, w, u);
      DoneSolves(a, n, m, u, w);
      assert Dot(a[i], u) == -w[i];
    }
  }

  /** A matrix whose elimination succeeds is not singular. */
  lemma NotSingular(a: Matrix, n: nat, m: Matrix)
    requires Eliminated(a, n, m, n)
    ensures !Singular(a, n)
  {
    forall v: Row | |v| == n && Solves(a, v) ensures v == Zero(n) {
      var w := Zero(n);
      assert Maps(a, n, v, w);
      DoneSolves(a, n, m, v, w);
      forall i | 0 <= i < n ensures v[i] == 0.0 {
        DotZero(RightHalf(m, n)[i], w);
        assert Dot(RightHalf(m, n)[i], w) == -v[i];
      }
    }
  }

  /** The vector that a column without a pivot yields. */
  function Kernel(m: Matrix, n: nat, c: nat): Row
    requires Shape(m, n, 2 * n) && c < n
  {
    seq(n, k requires 0 <= k < n => if k < c then -m[k][c] else if k == c then 1.0 else 0.0)
  }

  lemma DotHead(a: Row, z: Row)
    requires |a| == |z| && a != []
    ensures Dot(a, z) == a[0] * z[0] + Dot(a[1..], z[1..])
  {
  }

  lemma DotSplit(a: Row, z: Row, c: nat)
    requires |a| == |z| && c < |a|
    ensures Dot(a, z) == Dot(a[..c], z[..c]) + a[c] * z[c] + Dot(a[c+1..], z[c+1..])
  {
    hide *;
    var a', z' := a[c..], z[c..];
    DotHead(a', z');
    assert a'[1..] == a[c+1..] && z'[1..] == z[c+1..];
    assert a == a[..c] + a' && z == z[..c] + z';
    DotAppend(a[..c], a', z[..c], z');
  }

  lemma KernelDot(m: Matrix, n: nat, c: nat, i: nat)
    requires Shape(m, n, 2 * n) && c < n && UnitColumns(m, n, c) && i < n
    requires forall r :: c <= r < n ==> m[r][c] == 0.0
    ensures Dot(m[i], Kernel(m, n, c) + Zero(n)) == 0.0
  {
    var row, z := m[i], Kernel(m, n, c) + Zero(n);
    DotSplit(row, z, c);
    var tail := z[c+1..];
    forall k | 0 <= k < |tail| ensures tail[k] == 0.0 { assert tail[k] == z[c + 1 + k]; }
    DotZero(row[c+1..], tail);
    hide Dot;
    assert z[c] == 1.0;
    if i < c {
      assert row[..c] == Unit(c, i);
      DotUnit(z[..c], i);
      assert z[..c][i] == -row[c];
    } else {
      forall k | 0 <= k < c ensures row[..c][k] == 0.0 { assert m[i][k] == 0.0; }
      DotZero(z[..c], row[..c]);
    }
  }

  /** A column without a pivot makes the matrix singular. */
  lemma NoPivot(a: Matrix, n: nat, m: Matrix, c: nat)
    requires Eliminated(a, n, m, c) && c < n
    requires forall r :: c <= r < n ==> m[r][c] == 0.0
    ensures Singular(a, n)
  {
    var u, w := Kernel(m, n, c), Zero(n);
    forall i | 0 <= i < n ensures Dot(m[i], u + w) == 0.0 { KernelDot(m, n, c, i); }
    hide Dot;
    assert Solves(m, u + w);
    AugmentedSolves(a, n, u, w);
    assert Maps(a, n, u, w);
    assert Solves(a, u);
    assert u[c] == 1.0 && w[c] == 0.0;
  }

  // ------------------------------------------------------------ the steps on one column

  /** A step of the elimination changes nothing in the invariant but possibly the columns done. */
  lemma StepEliminated(a: Matrix, n: nat, m: Matrix, m': Matrix, c: nat, c': nat)
    requires Eliminated(a, n, m, c) && Shape(m', n, 2 * n) && SameSolutions(m, m', 2 * n)
    requires c' <= n && UnitColumns(m', n, c')
    ensures Eliminated(a, n, m', c')
  {
    var b := Augmented(a, n);
    hide Augmented, Solves, UnitColumns;
    forall z: Row | |z| == 2 * n ensures Solves(b, z) <==> Solves(m', z) {
      assert Solves(b, z) <==> Solves(m, z);
    }
  }

  lemma SwapStep(a: Matrix, n: nat, m: Matrix, c: nat, line: nat)
    requires Eliminated(a, n, m, c) && c <= line < n
    ensures Eliminated(a, n, Swapped(m, c, line), c)
  {
    SwapKeeps(m, c, line, 2 * n);
    StepEliminated(a, n, m, Swapped(m, c, line), c, c);
  }

  lemma DividedEntry(row: Row, c: nat, k: nat)
    requires c < |row| && k < |row| && row[c] != 0.0
    ensures Divided(row, row[c])[c] == 1.0
    ensures row[k] == 0.0 ==> Divided(row, row[c])[k] == 0.0
  {
    var p := row[c];
    QuotientTimes(p, p);
    ProductZero(p / p - 1.0, p);
    QuotientTimes(row[k], p);
    ProductZero(row[k] / p, p);
  }

  lemma DivideStep(a: Matrix, n: nat, m: Matrix, c: nat)
    requires Eliminated(a, n, m, c) && c < n && m[c][c] != 0.0
    ensures Eliminated(a, n, m[c := Divided(m[c], m[c][c])], c)
    ensures m[c := Divided(m[c], m[c][c])][c][c] == 1.0
  {
    hide Divided, SameSolutions, Augmented;
    var m' := m[c := Divided(m[c], m[c][c])];
    DivideKeeps(m, c, m[c][c], 2 * n);
    DividedEntry(m[c], c, c);
    forall i: nat, k: nat | i < n && k < c ensures m'[i][k] == if i == k then 1.0 else 0.0 {
      DividedEntry(m[c], c, k);
    }
    StepEliminated(a, n, m, m', c, c);
  }

  /** Column c is a unit column in the rows below r, except for row c, which has its pivot. */
  ghost predicate ColumnSoFar(m: Matrix, n: nat, c: nat, r: nat)
    requires Shape(m, n, 2 * n) && c < n
  {
    m[c][c] == 1.0 && forall i: nat :: i < r && i < n && i != c ==> m[i][c] == 0.0
  }

  lemma ReduceEntries(m: Matrix, n: nat, c: nat, r: nat)
    requires Shape(m, n, 2 * n) && c < n && UnitColumns(m, n, c) && r < n && r != c && ColumnSoFar(m, n, c, r)
    ensures Shape(m[r := Reduced(m[r], m[c], m[r][c])], n, 2 * n)
    ensures UnitColumns(m[r := Reduced(m[r], m[c], m[r][c])], n, c)
    ensures ColumnSoFar(m[r := Reduced(m[r], m[c], m[r][c])], n, c, r + 1)
  {
    var m' := m[r := Reduced(m[r], m[c], m[r][c])];
    forall i: nat, k: nat | i < n && k < c ensures m'[i][k] == if i == k then 1.0 else 0.0 {
      assert m[c][k] == 0.0 && m[i][k] == if i == k then 1.0 else 0.0;
    }
  }

  lemma ReduceStep(a: Matrix, n: nat, m: Matrix, c: nat, r: nat)
    requires Eliminated(a, n, m, c) && c < n && r < n && r != c && ColumnSoFar(m, n, c, r)
    ensures Eliminated(a, n, m[r := Reduced(m[r], m[c], m[r][c])], c)
    ensures ColumnSoFar(m[r := Reduced(m[r], m[c], m[r][c])], n, c, r + 1)
  {
    hide SameSolutions, UnitColumns, ColumnSoFar, Reduced, Augmented;
    ReduceEntries(m, n, c, r);
    ReduceKeeps(m, r, c, m[r][c], 2 * n);
    StepEliminated(a, n, m, m[r := Reduced(m[r], m[c], m[r][c])], c, c);
  }

  lemma NothingToReduce(m: Matrix, n: nat, c: nat, r: nat)
    requires Shape(m, n, 2 * n) && c < n && r < n && ColumnSoFar(m, n, c, r)
    requires r == c || m[r][c] == 0.0
    ensures ColumnSoFar(m, n, c, r + 1)
  {
  }

  lemma ColumnDone(a: Matrix, n: nat, m: Matrix, c: nat)
    requires Eliminated(a, n, m, c) && c < n && ColumnSoFar(m, n, c, n)
    ensures Eliminated(a, n, m, c + 1)
  {
    hide SameSolutions, Augmented;
    forall i: nat, k: nat | i < n && k < c + 1 ensures m[i][k] == if i == k then 1.0 else 0.0 {
      if k == c { assert i != c ==> m[i][c] == 0.0; }
    }
  }

  lemma Start(a: Matrix, n: nat)
    requires Shape(a, n, n)
    ensures Eliminated(a, n, Augmented(a, n), 0)
  {
  }

  // ------------------------------------------------------------ the class

  function Abs(x: real): real {
    if x < 0.0 then -x else x
  }

  datatype InverseResult = Inverse(x: Matrix) | InvalidDimension | InvalidRange | DeterminantIsZero

  class CFloatMatrix {
    const m_iRows: nat
    const m_iColumns: nat
    const m_ppfData: array<Row>

    ghost predicate Valid()
      reads m_ppfData
    {
      Shape(m_ppfData[..], m_iRows, m_iColumns)
    }

    constructor (iRows: nat, iColumns: nat)
      ensures Valid() && m_iRows == iRows && m_iColumns == iColumns && fresh(m_ppfData)
    {
      m_iRows, m_iColumns := iRows, iColumns;
      m_ppfData := new Row[iRows](_ => Zero(iColumns));
    }

    /** The range test shared by `GetSub` and `SetSub`. */
    predicate InRange(aiRowStart: int, aiRowEnd: int, aiColStart: int, aiColEnd: int) {
      0 <= aiRowStart <= aiRowEnd < m_iRows && 0 <= aiColStart <= aiColEnd < m_iColumns
    }

    /** `GetSub`; the flag is false for the exception. */
    method GetSub(aiRowStart: int, aiRowEnd: int, aiColStart: int, aiColEnd: int) returns (ok: bool, sub: Matrix)
      requires Valid()
      ensures ok <==> InRange(aiRowStart, aiRowEnd, aiColStart, aiColEnd)
      ensures ok ==> |sub| == aiRowEnd - aiRowStart + 1
      ensures ok ==> forall i: nat :: i < |sub| ==> sub[i] == m_ppfData[..][aiRowStart + i][aiColStart..aiColEnd + 1]
    {
      ok, sub := InRange(aiRowStart, aiRowEnd, aiColStart, aiColEnd), [];
      if ok {
        var iRow := aiRowStart;
        while iRow <= aiRowEnd
          invariant aiRowStart <= iRow <= aiRowEnd + 1 && |sub| == iRow - aiRowStart
          invariant forall i: nat :: i < |sub| ==> sub[i] == m_ppfData[..][aiRowStart + i][aiColStart..aiColEnd + 1]
        {
          assert m_ppfData[..][iRow] == m_ppfData[iRow];
          sub := sub + [m_ppfData[iRow][aiColStart..aiColEnd + 1]];
          iRow := iRow + 1;
        }
      }
    }

    /** Row r with its columns from c on overwritten by s. */
    static function Pasted(r: Row, c: nat, s: Row): Row
      requires c + |s| <= |r|
    {
      r[..c] + s + r[c+|s|..]
    }

    /** The inner loop of `SetSub`. */
    method SetRow(iRow: nat, aiColStart: nat, s: Row)
      requires Valid() && iRow < m_iRows && aiColStart + |s| <= m_iColumns
      modifies m_ppfData
      ensures Valid()
      ensures m_ppfData[..] == old(m_ppfData[..])[iRow := Pasted(old(m_ppfData[..])[iRow], aiColStart, s)]
    {
      ghost var before := m_ppfData[..];
      var k := 0;
      assert Pasted(before[iRow], aiColStart, s[..0]) == before[iRow];
      assert before == before[iRow := before[iRow]];
      while k < |s|
        invariant 0 <= k <= |s|
        invariant m_ppfData[..] == before[iRow := Pasted(before[iRow], aiColStart, s[..k])]
      {
        assert m_ppfData[..][iRow] == Pasted(before[iRow], aiColStart, s[..k]);
        ghost var now := m_ppfData[..];
        PastedNext(before[iRow], aiColStart, s, k);
        m_ppfData[iRow] := m_ppfData[iRow][aiColStart + k := s[k]];
        assert m_ppfData[..] == now[iRow := Pasted(before[iRow], aiColStart, s[..k+1])];
        k := k + 1;
      }
      assert s[..k] == s;
    }

    /** `SetSub`; the flag is false for the exception. */
    method SetSub(aiRowStart: int, aiRowEnd: int, aiColStart: int, aiColEnd: int, amSubMat: Matrix) returns (ok: bool)
      requires Valid() && forall i :: 0 <= i < |amSubMat| ==> |amSubMat[i]| == |amSubMat[0]|
      modifies m_ppfData
      ensures Valid()
      ensures ok <==> InRange(aiRowStart, aiRowEnd, aiColStart, aiColEnd)
                      && |amSubMat| == aiRowEnd - aiRowStart + 1 && |amSubMat[0]| == aiColEnd - aiColStart + 1
      ensures !ok ==> m_ppfData[..] == old(m_ppfData[..])
      ensures ok ==> forall i: nat :: i < m_iRows ==>
                m_ppfData[..][i] == if aiRowStart <= i <= aiRowEnd
                                    then Pasted(old(m_ppfData[..])[i], aiColStart, amSubMat[i - aiRowStart])
                                    else old(m_ppfData[..])[i]
    {
      ok := InRange(aiRowStart, aiRowEnd, aiColStart, aiColEnd)
            && |amSubMat| == aiRowEnd - aiRowStart + 1 && |amSubMat[0]| == aiColEnd - aiColStart + 1;
      if ok {
        hide Pasted;
        ghost var before := m_ppfData[..];
        var iRow := aiRowStart;
        while iRow <= aiRowEnd
          invariant aiRowStart <= iRow <= aiRowEnd + 1 && Valid()
          invariant forall i: nat :: i < m_iRows ==>
                      m_ppfData[..][i] == if aiRowStart <= i < iRow
                                          then Pasted(before[i], aiColStart, amSubMat[i - aiRowStart])
                                          else before[i]
        {
          SetRow(iRow, aiColStart, amSubMat[iRow - aiRowStart]);
          iRow := iRow + 1;
        }
      }
    }

    /** A whole row is replaced: `SetSub` of one row and all columns. */
    method ReplaceRow(i: nat, row: Row)
      requires Valid() && i < m_iRows && |row| == m_iColumns > 0
      modifies m_ppfData
      ensures Valid() && m_ppfData[..] == old(m_ppfData[..])[i := row]
    {
      ghost var before := m_ppfData[..];
      var ok := SetSub(i, i, 0, m_iColumns - 1, [row]);
      assert Pasted(before[i], 0, row) == row;
      assert m_ppfData[..] == before[i := row];
    }

    /** A whole row: `GetSub` of one row and all columns. */
    method GetRow(i: nat) returns (row: Row)
      requires Valid() && i < m_iRows && m_iColumns > 0
      ensures row == m_ppfData[..][i] && |row| == m_iColumns
    {
      var ok, sub := GetSub(i, i, 0, m_iColumns - 1);
      row := sub[0];
    }

    /** The pivot search: a row at or below the diagonal whose entry is the largest in magnitude. */
    method FindPivot(iRow: nat) returns (dMax: real, iLine: nat)
      requires Valid() && iRow < m_iRows && iRow < m_iColumns
      ensures iRow <= iLine < m_iRows && dMax == Abs(m_ppfData[..][iLine][iRow])
      ensures forall r :: iRow <= r < m_iRows ==> Abs(m_ppfData[..][r][iRow]) <= dMax
    {
      dMax, iLine := Abs(m_ppfData[iRow][iRow]), iRow;
      var iDiagCount := iRow + 1;
      while iDiagCount < m_iRows
        invariant iRow <= iLine < iDiagCount <= m_iRows && dMax == Abs(m_ppfData[..][iLine][iRow])
        invariant forall r :: iRow <= r < iDiagCount ==> Abs(m_ppfData[..][r][iRow]) <= dMax
      {
        var dTemp := Abs(m_ppfData[iDiagCount][iRow]);
        assert dTemp == Abs(m_ppfData[..][iDiagCount][iRow]);
        if dTemp > dMax { dMax, iLine := dTemp, iDiagCount; }
        iDiagCount := iDiagCount + 1;
      }
    }

    /** The row exchange, the division and the elimination for one column of [A | I]. */
    method EliminateColumn(iRow: nat, iLine: nat, ghost a: Matrix, n: nat)
      requires Valid() && m_iRows == n && m_iColumns == 2 * n && iRow <= iLine < n
      requires Eliminated(a, n, m_ppfData[..], iRow) && m_ppfData[..][iLine][iRow] != 0.0
      modifies m_ppfData
      ensures Valid() && Eliminated(a, n, m_ppfData[..], iRow + 1)
    {
      ghost var m := m_ppfData[..];
      SwapStep(a, n, m, iRow, iLine);
      hide Eliminated, UnitColumns;
      if iRow != iLine {
        var mTemp := GetRow(iRow);
        var mLine := GetRow(iLine);
        ReplaceRow(iRow, mLine);
        ReplaceRow(iLine, mTemp);
      }
      assert m_ppfData[..] == Swapped(m, iRow, iLine);
      DivideStep(a, n, m_ppfData[..], iRow);
      var row := GetRow(iRow);
      ReplaceRow(iRow, Divided(row, row[iRow]));
      ClearColumn(iRow, a, n);
    }

    /** The last inner loop: the column is cleared in all other rows. */
    method ClearColumn(iRow: nat, ghost a: Matrix, n: nat)
      requires Valid() && m_iRows == n && m_iColumns == 2 * n && iRow < n
      requires Eliminated(a, n, m_ppfData[..], iRow) && m_ppfData[..][iRow][iRow] == 1.0
      modifies m_ppfData
      ensures Valid() && Eliminated(a, n, m_ppfData[..], iRow + 1)
    {
      assert ColumnSoFar(m_ppfData[..], n, iRow, 0);
      hide Eliminated, Reduced, UnitColumns, ColumnSoFar;
      var iCol := 0;
      while iCol < n
        invariant 0 <= iCol <= n && Valid()
        invariant Eliminated(a, n, m_ppfData[..], iRow) && ColumnSoFar(m_ppfData[..], n, iRow, iCol)
      {
        if iRow == iCol || m_ppfData[iCol][iRow] == 0.0 {
          NothingToReduce(m_ppfData[..], n, iRow, iCol);
        } else {
          ReduceStep(a, n, m_ppfData[..], iRow, iCol);
          var r := GetRow(iCol);
          var p := GetRow(iRow);
          ReplaceRow(iCol, Reduced(r, p, r[iRow]));
        }
        iCol := iCol + 1;
      }
      ColumnDone(a, n, m_ppfData[..], iRow);
    }

    /** The augmented matrix [A | I]; there is none for a matrix without rows. */
    static method Augment(amMatrix: CFloatMatrix) returns (ok: bool, mA: CFloatMatrix)
      requires amMatrix.Valid() && amMatrix.m_iRows == amMatrix.m_iColumns
      ensures ok <==> amMatrix.m_iRows > 0
      ensures mA.Valid() && fresh(mA) && fresh(mA.m_ppfData)
      ensures mA.m_iRows == amMatrix.m_iRows && mA.m_iColumns == 2 * mA.m_iRows
      ensures ok ==> Eliminated(amMatrix.m_ppfData[..], mA.m_iRows, mA.m_ppfData[..], 0)
    {
      var n: int := amMatrix.m_iRows;
      var a := amMatrix.m_ppfData[..];
      mA := new CFloatMatrix(n, 2 * n);
      ok := mA.SetSub(0, n - 1, 0, n - 1, a);
      if ok {
        ghost var half := mA.m_ppfData[..];
        forall i: nat | i < n ensures half[i][..n] == a[i] { }
        ok := mA.SetSub(0, n - 1, n, 2 * n - 1, IdentityMatrix(n));
        Start(a, n);
        hide Eliminated, Pasted, Augmented;
        IsAugmented(a, n, half, mA.m_ppfData[..]);
      }
    }

    /** The loop over the columns of [A | I]. */
    method GaussJordan(ghost a: Matrix, n: nat) returns (ok: bool)
      requires Valid() && m_iRows == n && m_iColumns == 2 * n
      requires Eliminated(a, n, m_ppfData[..], 0)
      modifies m_ppfData
      ensures Valid() && Shape(a, n, n)
      ensures ok ==> Eliminated(a, n, m_ppfData[..], n)
      ensures !ok ==> Singular(a, n)
    {
      hide Singular, SameSolutions, UnitColumns, Augmented;
      var iRow := 0;
      while iRow < n
        invariant 0 <= iRow <= n && Valid() && Eliminated(a, n, m_ppfData[..], iRow)
      {
        var dMax, iLine := FindPivot(iRow);
        if dMax == 0.0 {
          NoPivot(a, n, m_ppfData[..], iRow);
          return false;
        }
        EliminateColumn(iRow, iLine, a, n);
        iRow := iRow + 1;
      }
      return true;
    }

    /** `Inverse`: the result is a two-sided inverse, and "Determinant is zero" is reported exactly
        for the matrices that map some nonzero vector to zero. */
    static method Inverse(amMatrix: CFloatMatrix) returns (r: InverseResult)
      requires amMatrix.Valid()
      ensures r.InvalidDimension? <==> amMatrix.m_iRows != amMatrix.m_iColumns
      ensures r.InvalidRange? <==> amMatrix.m_iRows == amMatrix.m_iColumns == 0
      ensures r.DeterminantIsZero? <==>
                amMatrix.m_iRows == amMatrix.m_iColumns > 0 && Singular(amMatrix.m_ppfData[..], amMatrix.m_iRows)
      ensures r.Inverse? ==> ProductIsIdentity(r.x, amMatrix.m_ppfData[..], amMatrix.m_iRows)
                             && ProductIsIdentity(amMatrix.m_ppfData[..], r.x, amMatrix.m_iRows)
    {
      var n: int := amMatrix.m_iRows;
      if n != amMatrix.m_iColumns { return InvalidDimension; }
      ghost var a := amMatrix.m_ppfData[..];
      hide Eliminated, Singular, ProductIsIdentity, RightHalf;
      assert Shape(a, n, n);
      var ok, mA := Augment(amMatrix);
      assert amMatrix.m_ppfData[..] == a;
      if !ok { return InvalidRange; }
      ok := mA.GaussJordan(a, n);
      if !ok { return DeterminantIsZero; }
      ghost var m := mA.m_ppfData[..];
      LeftInverse(a, n, m);
      RightInverse(a, n, m);
      NotSingular(a, n, m);
      var sub;
      ok, sub := mA.GetSub(0, n - 1, n, 2 * n - 1);
      IsRightHalf(m, n, sub);
      return InverseResult.Inverse(sub);
    }
  }

  lemma IsAugmented(a: Matrix, n: nat, half: Matrix, m: Matrix)
    requires Shape(a, n, n) && Shape(half, n, 2 * n) && |m| == n
    requires forall i: nat :: i < n ==> half[i][..n] == a[i] && m[i] == CFloatMatrix.Pasted(half[i], n, Unit(n, i))
    ensures m == Augmented(a, n)
  {
    forall i: nat | i < n ensures m[i] == Augmented(a, n)[i] { }
  }

  lemma IsRightHalf(m: Matrix, n: nat, sub: Matrix)
    requires Shape(m, n, 2 * n) && |sub| == n
    requires forall i: nat :: i < n ==> sub[i] == m[i][n..2 * n]
    ensures sub == RightHalf(m, n)
  {
    forall i: nat | i < n ensures sub[i] == RightHalf(m, n)[i] { assert m[i][n..2 * n] == m[i][n..]; }
  }

  lemma PastedNext(r: Row, c: nat, s: Row, k: nat)
    requires c + |s| <= |r| && k < |s|
    ensures CFloatMatrix.Pasted(r, c, s[..k+1]) == CFloatMatrix.Pasted(r, c, s[..k])[c + k := s[k]]
  {
  }

  /** `Identity` */
  function IdentityMatrix(n: nat): Matrix {
    seq(n, i requires 0 <= i < n => Unit(n, i))
  }
}
