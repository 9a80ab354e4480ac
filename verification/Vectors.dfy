/** Three-dimensional vectors over exact reals and the identities Gram-Schmidt needs. */
module Vectors {

  /** Product of two reals, under a name so that equal factors give equal products. */
  function Mul(x: real, y: real): real { x * y }

  datatype V3 = V3(x: real, y: real, z: real)

  const ZERO := V3(0.0, 0.0, 0.0)

  function Dot(a: V3, b: V3): real { Mul(a.x, b.x) + Mul(a.y, b.y) + Mul(a.z, b.z) }

  function Scale(k: real, a: V3): V3 { V3(Mul(k, a.x), Mul(k, a.y), Mul(k, a.z)) }

  function Add(a: V3, b: V3): V3 { V3(a.x + b.x, a.y + b.y, a.z + b.z) }

  /** `SkVector3Combine`. */
  function Combine(a: V3, aScale: real, b: V3, bScale: real): V3 {
    V3(Mul(aScale, a.x) + Mul(bScale, b.x), Mul(aScale, a.y) + Mul(bScale, b.y), Mul(aScale, a.z) + Mul(bScale, b.z))
  }

  /** `SkVector3Cross`. */
  function Cross(a: V3, b: V3): V3 {
    V3(Mul(a.y, b.z) - Mul(a.z, b.y), Mul(a.z, b.x) - Mul(a.x, b.z), Mul(a.x, b.y) - Mul(a.y, b.x))
  }

  /** Determinant of the matrix with columns (or rows) a, b, c. */
  function Det(a: V3, b: V3, c: V3): real { Dot(a, Cross(b, c)) }

  // ---- Laws of the product ----

  lemma MulZero(p: real, q: real)
    ensures Mul(p, q) == 0.0 <==> p == 0.0 || q == 0.0
  {
  }

  lemma SquarePositive(x: real)
    ensures Mul(x, x) >= 0.0 && (Mul(x, x) == 0.0 ==> x == 0.0)
  {
    MulZero(x, x);
  }

  // ---- Dot products ----

  lemma DotSym(a: V3, b: V3)
    ensures Dot(a, b) == Dot(b, a)
  {}

  lemma DotScale(k: real, a: V3, b: V3)
    ensures Dot(Scale(k, a), b) == Mul(k, Dot(a, b))
  {}

  lemma CombineIsAdd(a: V3, b: V3, l: real)
    ensures Combine(a, 1.0, b, l) == Add(a, Scale(l, b))
  {}

  lemma DotAdd(a: V3, b: V3, c: V3)
    ensures Dot(Add(a, b), c) == Dot(a, c) + Dot(b, c)
  {}

  lemma DotSelf(a: V3)
    ensures Dot(a, a) >= 0.0 && (Dot(a, a) == 0.0 ==> a == ZERO)
  {
    SquarePositive(a.x);
    SquarePositive(a.y);
    SquarePositive(a.z);
  }

  // ---- Determinants ----

  lemma DetCyclic(a: V3, b: V3, c: V3)
    ensures Det(a, b, c) == Det(b, c, a)
  {}

  lemma DetScaleFirst(k: real, a: V3, b: V3, c: V3)
    ensures Det(Scale(k, a), b, c) == Mul(k, Det(a, b, c))
  {}

  lemma DetScaleSecond(k: real, a: V3, b: V3, c: V3)
    ensures Det(a, Scale(k, b), c) == Mul(k, Det(a, b, c))
  {
    DetCyclic(a, Scale(k, b), c);
    DetScaleFirst(k, b, c, a);
    DetCyclic(a, b, c);
  }

  lemma DetScaleThird(k: real, a: V3, b: V3, c: V3)
    ensures Det(a, b, Scale(k, c)) == Mul(k, Det(a, b, c))
  {}

  /** Adding a multiple of one vector to another leaves a determinant alone. */
  lemma DetShearSecond(a: V3, b: V3, c: V3, k: real)
    ensures Det(a, Combine(b, 1.0, a, k), c) == Det(a, b, c)
  {}

  lemma DetShearThird(a: V3, b: V3, c: V3, d: V3, k: real)
    requires d == a || d == b
    ensures Det(a, b, Combine(c, 1.0, d, k)) == Det(a, b, c)
  {}

  lemma DetZero(a: V3, b: V3, c: V3)
    ensures (a == ZERO || b == ZERO || c == ZERO) ==> Det(a, b, c) == 0.0
  {}

  // ---- Orthonormal rows ----

  /** Lagrange: |a|^2 |b|^2 = (a.b)^2 + |a x b|^2. */
  lemma Lagrange(a: V3, b: V3)
    ensures Mul(Dot(a, a), Dot(b, b)) == Mul(Dot(a, b), Dot(a, b)) + Dot(Cross(a, b), Cross(a, b))
  {}

  /** `Lagrange` over the values of the products. */
  lemma LagrangeOf(a: V3, b: V3, aa: real, bb: real, ab: real, n: V3)
    requires Dot(a, a) == aa && Dot(b, b) == bb && Dot(a, b) == ab && Cross(a, b) == n
    ensures Mul(aa, bb) == Mul(ab, ab) + Dot(n, n)
  {
    Lagrange(a, b);
  }

  lemma TripleVanishes(a0: real, a1: real, a2: real, b0: real, b1: real, b2: real, c0: real, c1: real, c2: real,
                       n1: real, n2: real)
    requires n1 == b2 * c0 - b0 * c2 && n2 == b0 * c1 - b1 * c0
    requires a0 * b0 + a1 * b1 + a2 * b2 == 0.0 && a0 * c0 + a1 * c1 + a2 * c2 == 0.0
    ensures Mul(a1, n2) - Mul(a2, n1) == 0.0
  {}

  /** a x (b x c) = b (a.c) - c (a.b) vanishes when a is at right angles to b and c. */
  lemma TripleCross(a: V3, b: V3, c: V3)
    requires Dot(a, b) == 0.0 && Dot(a, c) == 0.0
    ensures Cross(a, Cross(b, c)) == ZERO
  {
    var n := Cross(b, c);
    var l := Cross(a, n);
    assert l.x == 0.0 by { TripleVanishes(a.x, a.y, a.z, b.x, b.y, b.z, c.x, c.y, c.z, n.y, n.z); }
    assert l.y == 0.0 by { TripleVanishes(a.y, a.z, a.x, b.y, b.z, b.x, c.y, c.z, c.x, n.z, n.x); }
    assert l.z == 0.0 by { TripleVanishes(a.z, a.x, a.y, b.z, b.x, b.y, c.z, c.x, c.y, n.x, n.y); }
  }

  ghost predicate Orthonormal(a: V3, b: V3, c: V3) {
    && Dot(a, a) == 1.0 && Dot(b, b) == 1.0 && Dot(c, c) == 1.0
    && Dot(a, b) == 0.0 && Dot(a, c) == 0.0 && Dot(b, c) == 0.0
  }

  lemma CrossIsUnit(b: V3, c: V3)
    requires Dot(b, b) == 1.0 && Dot(c, c) == 1.0 && Dot(b, c) == 0.0
    ensures Dot(Cross(b, c), Cross(b, c)) == 1.0
  {
    LagrangeOf(b, c, 1.0, 1.0, 0.0, Cross(b, c));
  }

  lemma ParallelUnits(a: V3, n: V3)
    requires Dot(a, a) == 1.0 && Dot(n, n) == 1.0 && Cross(a, n) == ZERO
    ensures Mul(Dot(a, n), Dot(a, n)) == 1.0
  {
    LagrangeOf(a, n, 1.0, 1.0, Dot(a, n), ZERO);
  }

  lemma UnitSquare(d: real)
    requires Mul(d, d) == 1.0
    ensures d == 1.0 || d == -1.0
  {}

  lemma OrthonormalDet(a: V3, b: V3, c: V3)
    requires Orthonormal(a, b, c)
    ensures Det(a, b, c) == 1.0 || Det(a, b, c) == -1.0
  {
    CrossIsUnit(b, c);
    TripleCross(a, b, c);
    ParallelUnits(a, Cross(b, c));
    UnitSquare(Det(a, b, c));
  }

  // ---- Linear combinations ----

  /** Subtracting t r and adding it back. */
  lemma TakeAway(c: V3, r: V3, t: real, u: V3)
    ensures u == Combine(c, 1.0, r, -t) <==> c == Add(u, Scale(t, r))
  {}

  /** s(w + h r) = s w + (s h) r. */
  lemma Expand(s: real, w: V3, h: real, r: V3)
    ensures Scale(s, Add(w, Scale(h, r))) == Add(Scale(s, w), Scale(Mul(s, h), r))
  {}

}
