/** Square systems of linear equations over the reals, and what row operations do to their solutions. */
module LinearSystems {

  type Vector = seq<real>
  type Matrix = seq<seq<real>>

  ghost predicate Square(m: Matrix, n: nat) {
    |m| == n && forall r | 0 <= r < n :: |m[r]| == n
  }

  ghost function Dot(u: Vector, x: Vector): real
    requires |u| == |x|
  {
    if u == [] then 0.0 else Dot(u[..|u| - 1], x[..|x| - 1]) + u[|u| - 1] * x[|x| - 1]
  }

  ghost function Less(u: real, v: real, s: real): real { u - s * v }

  ghost function By(u: real, s: real): real { u * s }

  /** u less s times v. */
  ghost function Minus(u: Vector, v: Vector, s: real): (w: Vector)
    requires |u| == |v|
    ensures |w| == |u| && forall k | 0 <= k < |u| :: w[k] == Less(u[k], v[k], s)
  {
    seq(|u|, k requires 0 <= k < |u| => Less(u[k], v[k], s))
  }

  ghost function Times(u: Vector, s: real): (w: Vector)
    ensures |w| == |u| && forall k | 0 <= k < |u| :: w[k] == By(u[k], s)
  {
    seq(|u|, k requires 0 <= k < |u| => By(u[k], s))
  }

  ghost function Zero(n: nat): (w: Vector)
    ensures |w| == n && forall k | 0 <= k < n :: w[k] == 0.0
  {
    seq(n, _ => 0.0)
  }

  /** 1 at position k, 0 elsewhere. */
  ghost function Unit(n: nat, k: int): (w: Vector)
    ensures |w| == n && forall c | 0 <= c < n :: w[c] == if c == k then 1.0 else 0.0
  {
    seq(n, c => if c == k then 1.0 else 0.0)
  }

  ghost function Identity(n: nat): (m: Matrix)
    ensures Square(m, n) && forall r | 0 <= r < n :: m[r] == Unit(n, r)
  {
    seq(n, r => Unit(n, r))
  }

  ghost function Apply(m: Matrix, x: Vector): (y: Vector)
    requires Square(m, |x|)
    ensures |y| == |x| && forall r | 0 <= r < |x| :: y[r] == Dot(m[r], x)
  {
    seq(|x|, r requires 0 <= r < |x| => Dot(m[r], x))
  }

  /** The equations a x = v y, one a row. */
  ghost predicate Solves(a: Matrix, v: Matrix, x: Vector, y: Vector)
    requires |x| == |y| && Square(a, |x|) && Square(v, |x|)
  {
    forall r | 0 <= r < |x| :: Dot(a[r], x) == Dot(v[r], y)
  }

  /** Two pairs of matrices that have the same solutions. */
  ghost predicate Same(n: nat, a: Matrix, v: Matrix, b: Matrix, w: Matrix)
    requires Square(a, n) && Square(v, n) && Square(b, n) && Square(w, n)
  {
    forall x, y | |x| == n == |y| :: Solves(a, v, x, y) <==> Solves(b, w, x, y)
  }

  // ---------------------------------------------------------------- products

  lemma Distribute(u: real, v: real, s: real, x: real)
    ensures Less(u, v, s) * x == u * x - s * (v * x)
    ensures By(u, s) * x == s * (u * x)
  {}

  lemma Prefixes(u: Vector, v: Vector, s: real, k: nat)
    requires |u| == |v| && k <= |u|
    ensures Minus(u, v, s)[..k] == Minus(u[..k], v[..k], s)
    ensures Times(u, s)[..k] == Times(u[..k], s)
  {
    hide Less, By, Minus, Times;
  }

  lemma {:induction false} DotMinus(u: Vector, v: Vector, s: real, x: Vector)
    requires |u| == |v| == |x|
    ensures Dot(Minus(u, v, s), x) == Dot(u, x) - s * Dot(v, x)
    decreases |u|
  {
    hide Less, By, Minus;
    if u != [] {
      var k := |u| - 1;
      DotMinus(u[..k], v[..k], s, x[..k]);
      Prefixes(u, v, s, k);
      Distribute(u[k], v[k], s, x[k]);
      Spread(s, Dot(v[..k], x[..k]), v[k] * x[k]);
    }
  }

  lemma Spread(s: real, p: real, q: real)
    ensures s * (p + q) == s * p + s * q
  {}

  lemma {:induction false} DotTimes(u: Vector, s: real, x: Vector)
    requires |u| == |x|
    ensures Dot(Times(u, s), x) == s * Dot(u, x)
    decreases |u|
  {
    hide Less, By, Times;
    if u != [] {
      var k := |u| - 1;
      DotTimes(u[..k], s, x[..k]);
      Prefixes(u, u, s, k);
      Distribute(u[k], 0.0, s, x[k]);
      Spread(s, Dot(u[..k], x[..k]), u[k] * x[k]);
    }
  }

  lemma {:induction false} DotUpdate(u: Vector, x: Vector, k: nat, v: real)
    requires |u| == |x| && k < |x|
    ensures Dot(u, x[k := v]) == Dot(u, x) + u[k] * (v - x[k])
    decreases |u|
  {
    var n := |u| - 1;
    if k < n {
      DotUpdate(u[..n], x[..n], k, v);
      assert x[k := v][..n] == x[..n][k := v];
    } else {
      assert x[k := v][..n] == x[..n];
      Spread(u[n], x[n], v - x[n]);
    }
  }

  lemma {:induction false} DotZero(u: Vector)
    ensures Dot(u, Zero(|u|)) == 0.0
    decreases |u|
  {
    if u != [] {
      DotZero(u[..|u| - 1]);
      assert Zero(|u|)[..|u| - 1] == Zero(|u| - 1);
    }
  }

  lemma DotUnit(u: Vector, k: nat)
    requires k < |u|
    ensures Dot(u, Unit(|u|, k)) == u[k]
  {
    hide Dot;
    DotZero(u);
    DotUpdate(u, Zero(|u|), k, 1.0);
    assert Unit(|u|, k) == Zero(|u|)[k := 1.0];
  }

  lemma {:induction false} DotFlip(u: Vector, x: Vector)
    requires |u| == |x|
    ensures Dot(u, x) == Dot(x, u)
    decreases |u|
  {
    if u != [] { DotFlip(u[..|u| - 1], x[..|x| - 1]); }
  }

  lemma UnitDot(x: Vector, k: nat)
    requires k < |x|
    ensures Dot(Unit(|x|, k), x) == x[k]
  {
    DotUnit(x, k);
    DotFlip(Unit(|x|, k), x);
  }

  // ---------------------------------------------------------------- row operations

  /** Taking a multiple of another row off a row, on both sides, changes no solution. */
  lemma SolvesMinus(a: Matrix, v: Matrix, i: nat, j: nat, s: real, x: Vector, y: Vector)
    requires |x| == |y| && Square(a, |x|) && Square(v, |x|) && i < |x| && j < |x| && i != j
    ensures Solves(a, v, x, y) <==> Solves(a[i := Minus(a[i], a[j], s)], v[i := Minus(v[i], v[j], s)], x, y)
  {
    hide Dot, Minus, Times;
    DotMinus(a[i], a[j], s, x);
    DotMinus(v[i], v[j], s, y);
    var b, w := a[i := Minus(a[i], a[j], s)], v[i := Minus(v[i], v[j], s)];
    assert forall r | 0 <= r < |x| && r != i :: b[r] == a[r] && w[r] == v[r];
    if Solves(b, w, x, y) {
      assert Dot(b[j], x) == Dot(w[j], y);
      assert Dot(b[i], x) == Dot(w[i], y);
    }
  }

  lemma SolvesTimes(a: Matrix, v: Matrix, j: nat, s: real, x: Vector, y: Vector)
    requires |x| == |y| && Square(a, |x|) && Square(v, |x|) && j < |x| && s != 0.0
    ensures Solves(a, v, x, y) <==> Solves(a[j := Times(a[j], s)], v[j := Times(v[j], s)], x, y)
  {
    hide Dot, Minus, Times;
    DotTimes(a[j], s, x);
    DotTimes(v[j], s, y);
    var b, w := a[j := Times(a[j], s)], v[j := Times(v[j], s)];
    assert forall r | 0 <= r < |x| && r != j :: b[r] == a[r] && w[r] == v[r];
    Scales(s, Dot(a[j], x), Dot(v[j], y));
    if Solves(b, w, x, y) {
      assert Dot(b[j], x) == Dot(w[j], y);
    }
  }

  lemma Scales(s: real, p: real, q: real)
    requires s != 0.0
    ensures s * p == s * q <==> p == q
  {
    assert s * p == s * q ==> s * (p - q) == 0.0;
  }

  lemma SolvesSwap(a: Matrix, v: Matrix, i: nat, j: nat, x: Vector, y: Vector)
    requires |x| == |y| && Square(a, |x|) && Square(v, |x|) && i < |x| && j < |x|
    ensures Solves(a, v, x, y) <==> Solves(a[i := a[j]][j := a[i]], v[i := v[j]][j := v[i]], x, y)
  {
    hide Dot, Minus, Times;
    var b, w := a[i := a[j]][j := a[i]], v[i := v[j]][j := v[i]];
    if Solves(b, w, x, y) {
      forall r | 0 <= r < |x| ensures Dot(a[r], x) == Dot(v[r], y) {
        var k := if r == i then j else if r == j then i else r;
        assert Dot(b[k], x) == Dot(w[k], y);
      }
    }
  }

  // ---------------------------------------------------------------- inverses

  /** v undoes a, on either side. */
  ghost predicate Inverse(a: Matrix, v: Matrix, n: nat)
    requires Square(a, n) && Square(v, n)
  {
    forall x, y | |x| == n == |y| :: Apply(a, x) == y <==> x == Apply(v, y)
  }

  /** Only zero is sent to zero. */
  ghost predicate Nonsingular(a: Matrix, n: nat)
    requires Square(a, n)
  {
    forall x | |x| == n && Apply(a, x) == Zero(n) :: x == Zero(n)
  }

  ghost function Column(m: Matrix, c: nat): (u: Vector)
    requires Square(m, |m|) && c < |m|
    ensures |u| == |m| && forall r | 0 <= r < |m| :: u[r] == m[r][c]
  {
    seq(|m|, r requires 0 <= r < |m| => m[r][c])
  }

  ghost function Product(a: Matrix, b: Matrix): (m: Matrix)
    requires Square(a, |a|) && Square(b, |a|)
    ensures Square(m, |a|) && forall r, c | 0 <= r < |a| && 0 <= c < |a| :: m[r][c] == Dot(a[r], Column(b, c))
  {
    seq(|a|, r requires 0 <= r < |a| => seq(|a|, c requires 0 <= c < |a| => Dot(a[r], Column(b, c))))
  }

  lemma ApplyUnit(m: Matrix, n: nat, c: nat)
    requires Square(m, n) && c < n
    ensures Apply(m, Unit(n, c)) == Column(m, c)
  {
    forall r | 0 <= r < n ensures Dot(m[r], Unit(n, c)) == m[r][c] {
      DotUnit(m[r], c);
    }
  }

  lemma InverseColumns(a: Matrix, v: Matrix, n: nat, c: nat)
    requires Square(a, n) && Square(v, n) && Inverse(a, v, n) && c < n
    ensures Apply(v, Column(a, c)) == Unit(n, c) && Apply(a, Column(v, c)) == Unit(n, c)
  {
    hide Dot, Apply, Column, Unit;
    ApplyUnit(a, n, c);
    ApplyUnit(v, n, c);
  }

  lemma MatrixEqual(m: Matrix, k: Matrix, n: nat)
    requires Square(m, n) && Square(k, n) && forall r, c | 0 <= r < n && 0 <= c < n :: m[r][c] == k[r][c]
    ensures m == k
  {
    assert forall r | 0 <= r < n :: m[r] == k[r];
  }

  /** An inverse times the matrix is the identity, in either order. */
  lemma InverseProducts(a: Matrix, v: Matrix, n: nat)
    requires Square(a, n) && Square(v, n) && Inverse(a, v, n)
    ensures Product(v, a) == Identity(n) && Product(a, v) == Identity(n)
  {
    hide Dot, Apply, Column, Unit, Inverse, Product, Identity;
    forall r, c | 0 <= r < n && 0 <= c < n
      ensures Product(v, a)[r][c] == Identity(n)[r][c] && Product(a, v)[r][c] == Identity(n)[r][c]
    {
      InverseColumns(a, v, n, c);
      assert Apply(v, Column(a, c))[r] == Unit(n, c)[r] && Apply(a, Column(v, c))[r] == Unit(n, c)[r];
    }
    MatrixEqual(Product(v, a), Identity(n), n);
    MatrixEqual(Product(a, v), Identity(n), n);
  }

  /** A matrix with an inverse is nonsingular. */
  lemma InverseNonsingular(a: Matrix, v: Matrix, n: nat)
    requires Square(a, n) && Square(v, n) && Inverse(a, v, n)
    ensures Nonsingular(a, n)
  {
    forall x | |x| == n && Apply(a, x) == Zero(n) ensures x == Zero(n) {
      assert x == Apply(v, Zero(n));
      forall r | 0 <= r < n ensures x[r] == 0.0 {
        DotZero(v[r]);
      }
    }
  }
}
