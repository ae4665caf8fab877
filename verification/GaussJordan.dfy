/**
 * The Gauss-Jordan inverse with partial pivoting of math/cc_mat4f.c, over the reals and for any size. A zero pivot, by
 * which the original divides, ends the method.
 */
module GaussJordan {
  import opened LinearSystems

  /** The matrix an array holds. */
  ghost function M(a: array2<real>): (m: Matrix)
    reads a
    ensures |m| == a.Length0 && forall r | 0 <= r < a.Length0 :: |m[r]| == a.Length1
    ensures forall r, c | 0 <= r < a.Length0 && 0 <= c < a.Length1 :: m[r][c] == a[r, c]
  {
    seq(a.Length0, r requires 0 <= r < a.Length0 reads a =>
      seq(a.Length1, c requires 0 <= c < a.Length1 reads a => a[r, c]))
  }

  // ---------------------------------------------------------------- the shape of the work in progress

  /** The first j columns are those of an upper triangle with ones on the diagonal. */
  ghost predicate Staged(m: Matrix, n: nat, j: nat)
    requires Square(m, n) && j <= n
  {
    forall r, c | 0 <= c < j && c <= r < n :: m[r][c] == if r == c then 1.0 else 0.0
  }

  /** The columns from j on are those of the identity. */
  ghost predicate Cleared(m: Matrix, n: nat, j: nat)
    requires Square(m, n)
  {
    forall r, c | 0 <= r < n && j <= c < n :: m[r][c] == if r == c then 1.0 else 0.0
  }

  // ---------------------------------------------------------------- solutions are kept

  lemma SameMinus(n: nat, a: Matrix, v: Matrix, b: Matrix, w: Matrix, i: nat, j: nat, s: real)
    requires Square(a, n) && Square(v, n) && Square(b, n) && Square(w, n) && Same(n, a, v, b, w)
    requires i < n && j < n && i != j
    ensures Same(n, a[i := Minus(a[i], a[j], s)], v[i := Minus(v[i], v[j], s)], b, w)
  {
    hide Solves, Minus;
    forall x, y | |x| == n == |y|
      ensures Solves(a[i := Minus(a[i], a[j], s)], v[i := Minus(v[i], v[j], s)], x, y) <==> Solves(b, w, x, y)
    {
      SolvesMinus(a, v, i, j, s, x, y);
    }
  }

  lemma SameTimes(n: nat, a: Matrix, v: Matrix, b: Matrix, w: Matrix, j: nat, s: real)
    requires Square(a, n) && Square(v, n) && Square(b, n) && Square(w, n) && Same(n, a, v, b, w)
    requires j < n && s != 0.0
    ensures Same(n, a[j := Times(a[j], s)], v[j := Times(v[j], s)], b, w)
  {
    hide Solves, Times;
    forall x, y | |x| == n == |y|
      ensures Solves(a[j := Times(a[j], s)], v[j := Times(v[j], s)], x, y) <==> Solves(b, w, x, y)
    {
      SolvesTimes(a, v, j, s, x, y);
    }
  }

  lemma SameSwap(n: nat, a: Matrix, v: Matrix, b: Matrix, w: Matrix, i: nat, j: nat)
    requires Square(a, n) && Square(v, n) && Square(b, n) && Square(w, n) && Same(n, a, v, b, w)
    requires i < n && j < n
    ensures Same(n, a[i := a[j]][j := a[i]], v[i := v[j]][j := v[i]], b, w)
  {
    hide Solves;
    forall x, y | |x| == n == |y|
      ensures Solves(a[i := a[j]][j := a[i]], v[i := v[j]][j := v[i]], x, y) <==> Solves(b, w, x, y)
    {
      SolvesSwap(a, v, i, j, x, y);
    }
  }

  // ---------------------------------------------------------------- loops over one row

  method Interchange(a: array2<real>, l: nat, j: nat)
    requires l < a.Length0 && j < a.Length0 && l != j
    modifies a
    ensures M(a) == old(M(a))[l := old(M(a))[j]][j := old(M(a))[l]]
  {
    for k := 0 to a.Length1
      invariant forall r, c | 0 <= r < a.Length0 && 0 <= c < a.Length1 ::
        a[r, c] == if c < k && r == j then old(a[l, c]) else if c < k && r == l then old(a[j, c]) else old(a[r, c])
    {
      var x := a[j, k];
      a[j, k] := a[l, k];
      a[l, k] := x;
    }
    MatrixIs(M(a), old(M(a))[l := old(M(a))[j]][j := old(M(a))[l]]);
  }

  lemma MatrixIs(m: Matrix, k: Matrix)
    requires |m| == |k| && forall r | 0 <= r < |m| :: |m[r]| == |k[r]|
    requires forall r, c | 0 <= r < |m| && 0 <= c < |m[r]| :: m[r][c] == k[r][c]
    ensures m == k
  {
    assert forall r | 0 <= r < |m| :: m[r] == k[r];
  }

  /** Takes a multiple of row j off row i, from the given column on. */
  method RowLess(a: array2<real>, i: nat, j: nat, s: real, from: nat)
    requires i < a.Length0 && j < a.Length0 && i != j && from <= a.Length1
    modifies a
    ensures forall r, c | 0 <= r < a.Length0 && 0 <= c < a.Length1 ::
      a[r, c] == if r == i && from <= c then Less(old(a[i, c]), old(a[j, c]), s) else old(a[r, c])
  {
    for k := from to a.Length1
      invariant forall r, c | 0 <= r < a.Length0 && 0 <= c < a.Length1 ::
        a[r, c] == if r == i && from <= c < k then Less(old(a[i, c]), old(a[j, c]), s) else old(a[r, c])
    {
      a[i, k] := a[i, k] - s * a[j, k];
    }
  }

  method RowBy(a: array2<real>, j: nat, s: real, from: nat)
    requires j < a.Length0 && from <= a.Length1
    modifies a
    ensures forall r, c | 0 <= r < a.Length0 && 0 <= c < a.Length1 ::
      a[r, c] == if r == j && from <= c then By(old(a[j, c]), s) else old(a[r, c])
  {
    for k := from to a.Length1
      invariant forall r, c | 0 <= r < a.Length0 && 0 <= c < a.Length1 ::
        a[r, c] == if r == j && from <= c < k then By(old(a[j, c]), s) else old(a[r, c])
    {
      a[j, k] := a[j, k] * s;
    }
  }

  // ---------------------------------------------------------------- elimination

  lemma LessZero(u: real, s: real, p: real)
    ensures Less(u, 0.0, s) == u
    ensures p != 0.0 ==> Less(u, p, u / p) == 0.0
    ensures Less(u, 1.0, u) == 0.0
  {}

  lemma ByOnce(p: real)
    requires p != 0.0
    ensures By(p, 1.0 / p) == 1.0 && 1.0 / p != 0.0
    ensures forall s :: By(0.0, s) == 0.0
  {}

  /** The largest entry in column j from row j down. */
  method Largest(a: array2<real>, j: nat) returns (l: nat)
    requires j < a.Length0 && j < a.Length1
    ensures j <= l < a.Length0
    ensures forall i | j <= i < a.Length0 :: Abs(a[i, j]) <= Abs(a[l, j])
  {
    l := j;
    for i := j + 1 to a.Length0
      invariant j <= l < a.Length0 && forall k | j <= k < i :: Abs(a[k, j]) <= Abs(a[l, j])
    {
      if Abs(a[i, j]) > Abs(a[l, j]) { l := i; }
    }
  }

  function Abs(x: real): real { if x < 0.0 then -x else x }

  /** Row i less the multiple of row j that leaves a zero in column j; the columns before j are left out. */
  method Eliminate(a: array2<real>, v: array2<real>, n: nat, i: nat, j: nat)
    requires a.Length0 == a.Length1 == v.Length0 == v.Length1 == n && a != v && j < i < n
    requires Staged(M(a), n, j) && a[j, j] != 0.0
    modifies a, v
    ensures M(a) == old(M(a)[i := Minus(M(a)[i], M(a)[j], a[i, j] / a[j, j])])
    ensures M(v) == old(M(v)[i := Minus(M(v)[i], M(v)[j], a[i, j] / a[j, j])])
    ensures a[i, j] == 0.0 && Staged(M(a), n, j)
  {
    hide Less, Minus;
    var s := a[i, j] / a[j, j];
    LessZero(a[i, j], s, a[j, j]);
    forall c | 0 <= c < j ensures Less(a[i, c], a[j, c], s) == a[i, c] {
      assert M(a)[j][c] == 0.0;
      LessZero(a[i, c], s, 1.0);
    }
    RowLess(a, i, j, s, j + 1);
    RowLess(v, i, j, s, 0);
    a[i, j] := 0.0;
    MatrixIs(M(a), old(M(a))[i := Minus(old(M(a))[i], old(M(a))[j], s)]);
    MatrixIs(M(v), old(M(v))[i := Minus(old(M(v))[i], old(M(v))[j], s)]);
    assert forall r, c | 0 <= c < j && c <= r < n :: a[r, c] == old(M(a))[r][c];
  }

  /** Zeros below the pivot of column j. */
  method Below(a: array2<real>, v: array2<real>, n: nat, j: nat, ghost b: Matrix)
    requires a.Length0 == a.Length1 == v.Length0 == v.Length1 == n && a != v && j < n && Square(b, n)
    requires Staged(M(a), n, j) && a[j, j] != 0.0 && Same(n, M(a), M(v), b, Identity(n))
    modifies a, v
    ensures Staged(M(a), n, j) && a[j, j] != 0.0 && Same(n, M(a), M(v), b, Identity(n))
    ensures forall r | j < r < n :: a[r, j] == 0.0
  {
    hide Same, Minus, Identity;
    for i := j + 1 to n
      invariant Staged(M(a), n, j) && a[j, j] != 0.0 && Same(n, M(a), M(v), b, Identity(n))
      invariant forall r | j < r < i :: a[r, j] == 0.0
    {
      SameMinus(n, M(a), M(v), b, Identity(n), i, j, a[i, j] / a[j, j]);
      ghost var m := M(a);
      Eliminate(a, v, n, i, j);
      assert forall r | 0 <= r < n && r != i :: M(a)[r] == m[r];
    }
  }

  /** Makes the pivot of column j one. */
  method Normalize(a: array2<real>, v: array2<real>, n: nat, j: nat, ghost b: Matrix)
    requires a.Length0 == a.Length1 == v.Length0 == v.Length1 == n && a != v && j < n && Square(b, n)
    requires Staged(M(a), n, j) && a[j, j] != 0.0 && Same(n, M(a), M(v), b, Identity(n))
    requires forall r | j < r < n :: a[r, j] == 0.0
    modifies a, v
    ensures Staged(M(a), n, j + 1) && Same(n, M(a), M(v), b, Identity(n))
  {
    hide Same, Times, Identity, By;
    var s := 1.0 / a[j, j];
    ByOnce(a[j, j]);
    SameTimes(n, M(a), M(v), b, Identity(n), j, s);
    assert forall c | 0 <= c < j :: M(a)[j][c] == 0.0;
    RowBy(a, j, s, j + 1);
    RowBy(v, j, s, 0);
    a[j, j] := 1.0;
    MatrixIs(M(a), old(M(a))[j := Times(old(M(a))[j], s)]);
    MatrixIs(M(v), old(M(v))[j := Times(old(M(v))[j], s)]);
    assert forall r, c | 0 <= c < j && c <= r < n :: a[r, c] == old(M(a))[r][c];
  }

  /** Brings the largest entry of column j up to the diagonal. */
  method Pivot(a: array2<real>, v: array2<real>, n: nat, j: nat, ghost b: Matrix)
    requires a.Length0 == a.Length1 == v.Length0 == v.Length1 == n && a != v && j < n && Square(b, n)
    requires Staged(M(a), n, j) && Same(n, M(a), M(v), b, Identity(n))
    modifies a, v
    ensures Staged(M(a), n, j) && Same(n, M(a), M(v), b, Identity(n))
    ensures a[j, j] == 0.0 ==> forall r | j <= r < n :: a[r, j] == 0.0
  {
    hide Same, Identity;
    var l := Largest(a, j);
    if l != j {
      SameSwap(n, M(a), M(v), b, Identity(n), l, j);
      Interchange(a, l, j);
      Interchange(v, l, j);
      ghost var m := old(M(a));
      assert forall r, c | 0 <= r < n && 0 <= c < n ::
        M(a)[r][c] == m[if r == j then l else if r == l then j else r][c];
    }
  }

  // ---------------------------------------------------------------- back-substitution

  /** Row i less the multiple of row j that leaves a zero above the one in column j. */
  method Clear(a: array2<real>, v: array2<real>, n: nat, i: nat, j: nat)
    requires a.Length0 == a.Length1 == v.Length0 == v.Length1 == n && a != v && i < j < n
    requires Staged(M(a), n, n) && Cleared(M(a), n, j + 1)
    modifies a, v
    ensures M(a) == old(M(a)[i := Minus(M(a)[i], M(a)[j], a[i, j])])
    ensures M(v) == old(M(v)[i := Minus(M(v)[i], M(v)[j], a[i, j])])
    ensures a[i, j] == 0.0 && Staged(M(a), n, n) && Cleared(M(a), n, j + 1)
    ensures forall r | 0 <= r < n && r != i :: a[r, j] == old(a[r, j])
  {
    hide Less, Minus;
    var s := a[i, j];
    LessZero(s, s, 1.0);
    assert M(a)[j][j] == 1.0;
    forall c | 0 <= c < n && c != j ensures Less(a[i, c], a[j, c], s) == a[i, c] {
      assert M(a)[j][c] == 0.0;
      LessZero(a[i, c], s, 1.0);
    }
    RowLess(a, i, j, s, j);
    RowLess(v, i, j, s, 0);
    MatrixIs(M(a), old(M(a))[i := Minus(old(M(a))[i], old(M(a))[j], s)]);
    MatrixIs(M(v), old(M(v))[i := Minus(old(M(v))[i], old(M(v))[j], s)]);
    assert forall r, c | 0 <= r < n && 0 <= c < n && (r != i || c != j) :: M(a)[r][c] == old(M(a))[r][c];
  }

  /** Zeros above the one in column j, from the diagonal up. */
  method Above(a: array2<real>, v: array2<real>, n: nat, j: nat, ghost b: Matrix)
    requires a.Length0 == a.Length1 == v.Length0 == v.Length1 == n && a != v && j < n && Square(b, n)
    requires Staged(M(a), n, n) && Cleared(M(a), n, j + 1) && Same(n, M(a), M(v), b, Identity(n))
    modifies a, v
    ensures Staged(M(a), n, n) && Cleared(M(a), n, j) && Same(n, M(a), M(v), b, Identity(n))
  {
    hide Same, Minus, Identity;
    var i := j - 1;
    while i >= 0
      invariant -1 <= i < j
      invariant Staged(M(a), n, n) && Cleared(M(a), n, j + 1) && Same(n, M(a), M(v), b, Identity(n))
      invariant forall r | i < r < j :: a[r, j] == 0.0
    {
      SameMinus(n, M(a), M(v), b, Identity(n), i, j, a[i, j]);
      Clear(a, v, n, i, j);
      i := i - 1;
    }
  }

  // ---------------------------------------------------------------- a zero pivot

  /** Solves the first rows of an upper triangle for the unknowns before j, given unknown j is one and none follow. */
  ghost function BackSubstitute(m: Matrix, n: nat, j: nat, r: nat): (x: Vector)
    requires Square(m, n) && r <= j < n
    ensures |x| == n && x[j] == 1.0 && forall c | 0 <= c < r :: x[c] == 0.0
    decreases j - r
  {
    if r == j then Unit(n, j)
    else
      var x := BackSubstitute(m, n, j, r + 1);
      x[r := -Dot(m[r], x)]
  }

  lemma {:induction false} BackSubstituteSolves(m: Matrix, n: nat, j: nat, r: nat)
    requires Square(m, n) && r <= j < n && Staged(m, n, j) && forall i | j <= i < n :: m[i][j] == 0.0
    ensures forall i | r <= i < n :: Dot(m[i], BackSubstitute(m, n, j, r)) == 0.0
    decreases j - r
  {
    hide Dot;
    if r == j {
      forall i | r <= i < n ensures Dot(m[i], Unit(n, j)) == 0.0 {
        DotUnit(m[i], j);
      }
    } else {
      var x := BackSubstitute(m, n, j, r + 1);
      BackSubstituteSolves(m, n, j, r + 1);
      forall i | r <= i < n ensures Dot(m[i], x[r := -Dot(m[r], x)]) == 0.0 {
        DotUpdate(m[i], x, r, -Dot(m[r], x));
        assert m[i][r] == if i == r then 1.0 else 0.0;
      }
    }
  }

  /** With a zero pivot the system has a solution it should not have. */
  lemma ZeroPivotSingular(a: Matrix, v: Matrix, b: Matrix, n: nat, j: nat)
    requires Square(a, n) && Square(v, n) && Square(b, n) && j < n && Same(n, a, v, b, Identity(n))
    requires Staged(a, n, j) && forall r | j <= r < n :: a[r][j] == 0.0
    ensures !Nonsingular(b, n)
  {
    hide Dot, Identity;
    var x := BackSubstitute(a, n, j, 0);
    BackSubstituteSolves(a, n, j, 0);
    forall r | 0 <= r < n ensures Dot(v[r], Zero(n)) == 0.0 && Dot(Identity(n)[r], Zero(n)) == 0.0 {
      DotZero(v[r]);
      DotZero(Identity(n)[r]);
    }
    assert Solves(a, v, x, Zero(n));
    assert Solves(b, Identity(n), x, Zero(n));
    assert Apply(b, x) == Zero(n);
    assert x[j] != Zero(n)[j];
  }

  /** When the left side has become the identity, the right side is the inverse. */
  lemma IdentityInverts(v: Matrix, b: Matrix, n: nat)
    requires Square(v, n) && Square(b, n) && Same(n, Identity(n), v, b, Identity(n))
    ensures Inverse(b, v, n)
  {
    hide Dot, Apply, Same;
    forall x, y | |x| == n == |y| ensures Apply(b, x) == y <==> x == Apply(v, y) {
      SameAt(n, Identity(n), v, b, Identity(n), x, y);
      forall r | 0 <= r < n ensures Dot(Identity(n)[r], x) == x[r] && Dot(Identity(n)[r], y) == y[r] {
        UnitDot(x, r);
        UnitDot(y, r);
      }
      assert Solves(Identity(n), v, x, y) <==> x == Apply(v, y);
      assert Solves(b, Identity(n), x, y) <==> Apply(b, x) == y;
    }
  }

  lemma SameAt(n: nat, a: Matrix, v: Matrix, b: Matrix, w: Matrix, x: Vector, y: Vector)
    requires Square(a, n) && Square(v, n) && Square(b, n) && Square(w, n) && Same(n, a, v, b, w)
    requires |x| == n == |y|
    ensures Solves(a, v, x, y) <==> Solves(b, w, x, y)
  {}

  // ---------------------------------------------------------------- the inverse

  method Copy(self: array2<real>, n: nat) returns (a: array2<real>)
    requires self.Length0 == self.Length1 == n
    ensures fresh(a) && a.Length0 == a.Length1 == n && M(a) == M(self)
  {
    a := new real[n, n](
      (r, c) reads self requires 0 <= r < n && 0 <= c < n && self.Length0 == self.Length1 == n => self[r, c]);
    MatrixIs(M(a), M(self));
  }

  method SetIdentity(v: array2<real>, n: nat)
    requires v.Length0 == v.Length1 == n
    modifies v
    ensures M(v) == Identity(n)
  {
    for r := 0 to n
      invariant forall i, c | 0 <= i < r && 0 <= c < n :: v[i, c] == if c == i then 1.0 else 0.0
    {
      for c := 0 to n
        invariant forall i, k | 0 <= i < r && 0 <= k < n :: v[i, k] == if k == i then 1.0 else 0.0
        invariant forall k | 0 <= k < c :: v[r, k] == if k == r then 1.0 else 0.0
      {
        v[r, c] := if c == r then 1.0 else 0.0;
      }
    }
    MatrixIs(M(v), Identity(n));
  }

  /** Brings the left side to an upper triangle with ones on the diagonal, or stops at a zero pivot. */
  method Forward(a: array2<real>, v: array2<real>, n: nat, ghost b: Matrix) returns (ok: bool)
    requires a.Length0 == a.Length1 == v.Length0 == v.Length1 == n && a != v && Square(b, n)
    requires Same(n, M(a), M(v), b, Identity(n))
    modifies a, v
    ensures ok ==> Staged(M(a), n, n) && Same(n, M(a), M(v), b, Identity(n))
    ensures !ok ==> !Nonsingular(b, n)
  {
    hide Same, Identity, Nonsingular;
    for j := 0 to n
      invariant Staged(M(a), n, j) && Same(n, M(a), M(v), b, Identity(n))
    {
      Pivot(a, v, n, j, b);
      if a[j, j] == 0.0 {
        ZeroPivotSingular(M(a), M(v), b, n, j);
        return false;
      }
      Below(a, v, n, j, b);
      Normalize(a, v, n, j, b);
    }
    ok := true;
  }

  /** Brings the left side from the triangle to the identity. */
  method Backward(a: array2<real>, v: array2<real>, n: nat, ghost b: Matrix)
    requires a.Length0 == a.Length1 == v.Length0 == v.Length1 == n && a != v && Square(b, n)
    requires Staged(M(a), n, n) && Same(n, M(a), M(v), b, Identity(n))
    modifies a, v
    ensures M(a) == Identity(n) && Same(n, M(a), M(v), b, Identity(n))
  {
    hide Same, Identity;
    var j := n - 1;
    while j > 0
      invariant -1 <= j < n && (j == -1 ==> n == 0)
      invariant Staged(M(a), n, n) && Cleared(M(a), n, j + 1) && Same(n, M(a), M(v), b, Identity(n))
    {
      Above(a, v, n, j, b);
      j := j - 1;
    }
    MatrixIs(M(a), Identity(n));
  }

  /**
   * The inverse exists exactly when every pivot found is nonzero, which is exactly when the matrix is nonsingular; the
   * result then undoes the matrix on either side.
   */
  method InverseCopy(self: array2<real>, copy: array2<real>, n: nat) returns (ok: bool)
    requires self.Length0 == self.Length1 == copy.Length0 == copy.Length1 == n
    modifies copy
    ensures ok <==> Nonsingular(old(M(self)), n)
    ensures ok ==> Inverse(old(M(self)), M(copy), n)
    ensures ok ==> Product(M(copy), old(M(self))) == Identity(n) && Product(old(M(self)), M(copy)) == Identity(n)
  {
    hide Nonsingular, Inverse, Identity, Solves, Product;
    ghost var b := M(self);
    var a := Copy(self, n);
    SetIdentity(copy, n);
    ok := Forward(a, copy, n, b);
    if ok {
      Backward(a, copy, n, b);
      IdentityInverts(M(copy), b, n);
      InverseNonsingular(b, M(copy), n);
      InverseProducts(b, M(copy), n);
    }
  }

  // ---------------------------------------------------------------- a matrix with a zero pivot

  /** The second row is twice the first: with the first column cleared the second pivot is zero. */
  ghost function Doubled(): Matrix {
    [[1.0, 2.0, 3.0, 4.0], [2.0, 4.0, 6.0, 8.0], [0.0, 0.0, 1.0, 0.0], [0.0, 0.0, 0.0, 1.0]]
  }

  lemma DotFour(u: Vector, x: Vector)
    requires |u| == 4 == |x|
    ensures Dot(u, x) == u[0] * x[0] + u[1] * x[1] + u[2] * x[2] + u[3] * x[3]
  {
    assert Dot(u[..0], x[..0]) == 0.0;
    forall k | 0 <= k < 4
      ensures Dot(u[..k + 1], x[..k + 1]) == Dot(u[..k], x[..k]) + u[k] * x[k]
    {
      assert u[..k + 1][..k] == u[..k] && x[..k + 1][..k] == x[..k];
    }
    assert u[..4] == u && x[..4] == x;
  }

  /** It has no inverse, and a vector that shows it. */
  lemma DoubledSingular()
    ensures Square(Doubled(), 4) && !Nonsingular(Doubled(), 4)
    ensures Apply(Doubled(), [2.0, -1.0, 0.0, 0.0]) == Zero(4)
  {
    var d, x := Doubled(), [2.0, -1.0, 0.0, 0.0];
    hide Doubled, Dot;
    forall r | 0 <= r < 4
      ensures |d| == 4 && |d[r]| == 4 && Dot(d[r], x) == 0.0
    {
      DoubledRow(r);
    }
    assert |d[0]| == 4 && |x| == 4 && x[0] != Zero(4)[0];
    SendsToZero(d, x);
  }

  lemma SendsToZero(m: Matrix, x: Vector)
    requires Square(m, |x|) && (forall r | 0 <= r < |x| :: Dot(m[r], x) == 0.0) && x != Zero(|x|)
    ensures Apply(m, x) == Zero(|x|) && !Nonsingular(m, |x|)
  {
  }

  lemma DoubledRow(r: nat)
    requires r < 4
    ensures |Doubled()| == 4 && |Doubled()[r]| == 4 && Dot(Doubled()[r], [2.0, -1.0, 0.0, 0.0]) == 0.0
  {
    hide Dot;
    DotFour(Doubled()[r], [2.0, -1.0, 0.0, 0.0]);
  }
}
