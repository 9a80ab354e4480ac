/** `flutter::MatrixDecomposition` over exact reals: translation, scale, shear and rotation
    rows of a 4x4 matrix. The square root is a parameter. */
module MatrixDecompositions {
  import opened Vectors

  function Length(v: V3, sqrt: real -> real): real { sqrt(Dot(v, v)) }

  /** `sqrt` gives the length of `v`, which is not zero. Of no other argument is anything demanded. */
  ghost predicate RootAt(sqrt: real -> real, v: V3) {
    Length(v, sqrt) > 0.0 && Mul(Length(v, sqrt), Length(v, sqrt)) == Dot(v, v)
  }

  // ---- One step: remove the part along a unit vector, then normalise ----

  lemma PositiveLength(v: V3, len: real)
    requires v != ZERO && len >= 0.0 && Mul(len, len) == Dot(v, v)
    ensures len > 0.0
  {
    DotSelf(v);
    MulZero(len, len);
  }

  /** Dividing a vector by its length gives a unit vector along it. */
  lemma Unit(v: V3, len: real)
    requires len > 0.0 && Mul(len, len) == Dot(v, v)
    ensures Dot(Scale(1.0 / len, v), Scale(1.0 / len, v)) == 1.0
    ensures v == Scale(len, Scale(1.0 / len, v))
  {}

  lemma Nonzero(k: real, d: real)
    requires Mul(k, d) != 0.0
    ensures d != 0.0
  {}

  /** Taking the part along a unit vector away leaves a vector at right angles to it. */
  lemma Perpendicular(r: V3, c: V3, t: real)
    requires Dot(r, r) == 1.0 && t == Dot(r, c)
    ensures Dot(r, Combine(c, 1.0, r, -t)) == 0.0
  {}

  lemma StaysPerpendicular(r: V3, c: V3, s: V3, t: real)
    requires Dot(r, c) == 0.0 && Dot(r, s) == 0.0
    ensures Dot(r, Combine(c, 1.0, s, -t)) == 0.0
  {}

  lemma UnitPerpendicular(r: V3, u: V3, len: real)
    requires Dot(r, Scale(len, u)) == 0.0 && len != 0.0
    ensures Dot(r, u) == 0.0
  {}

  // ---- The three columns are rebuilt ----

  /** c0 = sx r0, c1 = sy (r1 + shear.x r0), c2 = sz (r2 + shear.y r0 + shear.z r1). */
  ghost predicate Rebuilds(c0: V3, c1: V3, c2: V3, scale: V3, shear: V3, r0: V3, r1: V3, r2: V3) {
    && c0 == Scale(scale.x, r0)
    && c1 == Scale(scale.y, Add(r1, Scale(shear.x, r0)))
    && c2 == Scale(scale.z, Add(Add(r2, Scale(shear.y, r0)), Scale(shear.z, r1)))
  }

  function Quotient(t: real, len: real): (q: real)
    requires len != 0.0
    ensures t == Mul(len, q)
  {
    t / len
  }

  lemma RebuildSecond(c1: V3, r0: V3, t: real, q: real, r1: V3, len: real)
    requires Combine(c1, 1.0, r0, -t) == Scale(len, r1) && t == Mul(len, q)
    ensures c1 == Scale(len, Add(r1, Scale(q, r0)))
  {}

  lemma RebuildThird(c2: V3, r0: V3, t: real, q: real, r1: V3, t': real, q': real, r2: V3, len: real)
    requires Combine(Combine(c2, 1.0, r0, -t), 1.0, r1, -t') == Scale(len, r2) && t == Mul(len, q) && t' == Mul(len, q')
    ensures c2 == Scale(len, Add(Add(r2, Scale(q, r0)), Scale(q', r1)))
  {
    RebuildEntry(c2.x, r0.x, t, q, r1.x, t', q', r2.x, len);
    RebuildEntry(c2.y, r0.y, t, q, r1.y, t', q', r2.y, len);
    RebuildEntry(c2.z, r0.z, t, q, r1.z, t', q', r2.z, len);
  }

  lemma RebuildEntry(c: real, r0: real, t: real, q: real, r1: real, t': real, q': real, r2: real, len: real)
    requires Mul(1.0, Mul(1.0, c) + Mul(-t, r0)) + Mul(-t', r1) == Mul(len, r2)
    requires t == Mul(len, q) && t' == Mul(len, q')
    ensures c == Mul(len, (r2 + Mul(q, r0)) + Mul(q', r1))
  {}

  // ---- The reflection flip ----

  /** Multiplying all components by -1. */
  function Negate(v: V3): V3 { V3(Mul(v.x, -1.0), Mul(v.y, -1.0), Mul(v.z, -1.0)) }

  lemma NegateDot(a: V3, b: V3)
    ensures Dot(Negate(a), Negate(b)) == Dot(a, b)
  {}

  /** The flip keeps the rows orthonormal and changes the sign of their determinant. */
  lemma FlipRows(r0: V3, r1: V3, r2: V3)
    requires Orthonormal(r0, r1, r2)
    ensures Orthonormal(Negate(r0), Negate(r1), Negate(r2))
    ensures Det(Negate(r0), Negate(r1), Negate(r2)) == -Det(r0, r1, r2)
  {
    NegateDot(r0, r0);
    NegateDot(r1, r1);
    NegateDot(r2, r2);
    NegateDot(r0, r1);
    NegateDot(r0, r2);
    NegateDot(r1, r2);
    FlipDet(r0, r1, r2);
  }

  lemma FlipDet(r0: V3, r1: V3, r2: V3)
    ensures Det(Negate(r0), Negate(r1), Negate(r2)) == -Det(r0, r1, r2)
  {}

  lemma FlipScale(s: real, w: V3)
    ensures Scale(s, w) == Scale(Mul(s, -1.0), Negate(w))
  {}

  lemma FlipSum(a: V3, h: real, r: V3)
    ensures Negate(Add(a, Scale(h, r))) == Add(Negate(a), Scale(h, Negate(r)))
  {}

  lemma FlipRebuilds(c0: V3, c1: V3, c2: V3, scale: V3, shear: V3, r0: V3, r1: V3, r2: V3)
    requires Rebuilds(c0, c1, c2, scale, shear, r0, r1, r2)
    ensures Rebuilds(c0, c1, c2, Negate(scale), shear, Negate(r0), Negate(r1), Negate(r2))
  {
    FlipScale(scale.x, r0);
    FlipScale(scale.y, Add(r1, Scale(shear.x, r0)));
    FlipSum(r1, shear.x, r0);
    var v := Add(r2, Scale(shear.y, r0));
    FlipScale(scale.z, Add(v, Scale(shear.z, r1)));
    FlipSum(v, shear.z, r1);
    FlipSum(r2, shear.y, r0);
  }

  // ---- Gram-Schmidt ----

  /** Scale, shear and the three rows of the rotation. */
  datatype Parts = Parts(scale: V3, shear: V3, r0: V3, r1: V3, r2: V3)

  predicate SameSign(s: V3) {
    (s.x > 0.0 && s.y > 0.0 && s.z > 0.0) || (s.x < 0.0 && s.y < 0.0 && s.z < 0.0)
  }

  /** Right-handed orthonormal rows, scales all of one sign, and the columns rebuilt. */
  ghost predicate Decomposes(c0: V3, c1: V3, c2: V3, p: Parts) {
    && Rebuilds(c0, c1, c2, p.scale, p.shear, p.r0, p.r1, p.r2)
    && Orthonormal(p.r0, p.r1, p.r2) && Det(p.r0, p.r1, p.r2) == 1.0
    && SameSign(p.scale)
  }

  /** The unit vector along `v`. */
  function Row(v: V3, sqrt: real -> real): V3
    requires Length(v, sqrt) != 0.0
  {
    Scale(1.0 / Length(v, sqrt), v)
  }

  /** What is left of `c` without its part along the unit vector `r`. */
  function Rest(c: V3, r: V3): V3 { Combine(c, 1.0, r, -Dot(r, c)) }

  /** `sqrt` is right at the three arguments that the columns lead to. */
  ghost predicate RootsFor(c0: V3, c1: V3, c2: V3, sqrt: real -> real) {
    && RootAt(sqrt, c0)
    && var r0 := Row(c0, sqrt);
    && RootAt(sqrt, Rest(c1, r0))
    && var r1 := Row(Rest(c1, r0), sqrt);
    RootAt(sqrt, Rest(Rest(c2, r0), r1))
  }

  /** `SkVector3Normalize`. The length it divides by is positive, and the vector keeps its direction. */
  method Normalize(v: V3, sqrt: real -> real) returns (u: V3)
    requires RootAt(sqrt, v)
    ensures u == Row(v, sqrt) && Dot(u, u) == 1.0 && v == Scale(Length(v, sqrt), u)
  {
    var mag := sqrt(Dot(v, v));
    Unit(v, mag);
    var scale := 1.0 / mag;
    u := V3(Mul(scale, v.x), Mul(scale, v.y), Mul(scale, v.z));
  }

  method GramSchmidt(c0: V3, c1: V3, c2: V3, sqrt: real -> real) returns (p: Parts)
    requires RootsFor(c0, c1, c2, sqrt)
    ensures Decomposes(c0, c1, c2, p)
  {
    var scaleX := Length(c0, sqrt);
    var r0 := Normalize(c0, sqrt);
    var r1, scaleY, shearX := SecondRow(r0, c1, sqrt);
    var r2, scaleZ, shearY, shearZ := ThirdRow(r0, r1, c2, sqrt);
    p := Parts(V3(scaleX, scaleY, scaleZ), V3(shearX, shearY, shearZ), r0, r1, r2);
    OrthonormalDet(r0, r1, r2);
    if Dot(r0, Cross(r1, r2)) < 0.0 {
      FlipRows(r0, r1, r2);
      FlipRebuilds(c0, c1, c2, p.scale, p.shear, r0, r1, r2);
      p := Parts(Negate(p.scale), p.shear, Negate(r0), Negate(r1), Negate(r2));
    }
  }

  method SecondRow(r0: V3, c1: V3, sqrt: real -> real) returns (r1: V3, scaleY: real, shearX: real)
    requires Dot(r0, r0) == 1.0 && RootAt(sqrt, Rest(c1, r0))
    ensures r1 == Row(Rest(c1, r0), sqrt) && scaleY > 0.0 && Dot(r1, r1) == 1.0 && Dot(r0, r1) == 0.0
    ensures c1 == Scale(scaleY, Add(r1, Scale(shearX, r0)))
  {
    var t := Dot(r0, c1);
    var u := Combine(c1, 1.0, r0, -t);
    scaleY := Length(u, sqrt);
    r1 := Normalize(u, sqrt);
    shearX := Quotient(t, scaleY);
    Perpendicular(r0, c1, t);
    UnitPerpendicular(r0, r1, scaleY);
    RebuildSecond(c1, r0, t, shearX, r1, scaleY);
  }

  method ThirdRow(r0: V3, r1: V3, c2: V3, sqrt: real -> real) returns (r2: V3, scaleZ: real, shearY: real, shearZ: real)
    requires Dot(r0, r0) == 1.0 && Dot(r1, r1) == 1.0 && Dot(r0, r1) == 0.0
    requires RootAt(sqrt, Rest(Rest(c2, r0), r1))
    ensures scaleZ > 0.0 && Orthonormal(r0, r1, r2)
    ensures c2 == Scale(scaleZ, Add(Add(r2, Scale(shearY, r0)), Scale(shearZ, r1)))
  {
    var t := Dot(r0, c2);
    var u := Combine(c2, 1.0, r0, -t);
    var t' := Dot(r1, u);
    var u' := Combine(u, 1.0, r1, -t');
    RestIsPerpendicular(r0, r1, c2);
    scaleZ := Length(u', sqrt);
    r2 := Normalize(u', sqrt);
    UnitPerpendicular(r0, r2, scaleZ);
    UnitPerpendicular(r1, r2, scaleZ);
    shearY, shearZ := Quotient(t, scaleZ), Quotient(t', scaleZ);
    RebuildThird(c2, r0, t, shearY, r1, t', shearZ, r2, scaleZ);
  }

  /** What is left of c2 is at right angles to both rows. */
  lemma RestIsPerpendicular(r0: V3, r1: V3, c2: V3)
    requires Dot(r0, r0) == 1.0 && Dot(r1, r1) == 1.0 && Dot(r0, r1) == 0.0
    ensures Dot(r0, Rest(Rest(c2, r0), r1)) == 0.0 && Dot(r1, Rest(Rest(c2, r0), r1)) == 0.0
  {
    var u := Rest(c2, r0);
    Perpendicular(r0, c2, Dot(r0, c2));
    StaysPerpendicular(r0, u, r1, Dot(r1, u));
    Perpendicular(r1, u, Dot(r1, u));
  }

  // ---- No division is by zero ----

  ghost predicate IsSqrt(sqrt: real -> real) {
    forall x | x >= 0.0 :: sqrt(x) >= 0.0 && Mul(sqrt(x), sqrt(x)) == x
  }

  lemma SqrtAt(sqrt: real -> real, v: V3)
    requires IsSqrt(sqrt) && v != ZERO
    ensures RootAt(sqrt, v)
  {
    DotSelf(v);
    PositiveLength(v, Length(v, sqrt));
  }

  lemma RowKeepsDet(sqrt: real -> real, v: V3, len: real, r: V3, det: real, det': real)
    requires RootAt(sqrt, v) && len == Length(v, sqrt) && r == Row(v, sqrt) && det == Mul(len, det') && det != 0.0
    ensures det' != 0.0 && Dot(r, r) == 1.0
  {
    Unit(v, len);
    Nonzero(len, det');
  }

  lemma FirstRoot(c0: V3, c1: V3, c2: V3, sqrt: real -> real) returns (r0: V3)
    requires IsSqrt(sqrt) && Det(c0, c1, c2) != 0.0
    ensures RootAt(sqrt, c0) && r0 == Row(c0, sqrt) && Det(r0, c1, c2) != 0.0
  {
    DetZero(c0, c1, c2);
    SqrtAt(sqrt, c0);
    var len := Length(c0, sqrt);
    r0 := Row(c0, sqrt);
    Unit(c0, len);
    DetScaleFirst(len, r0, c1, c2);
    RowKeepsDet(sqrt, c0, len, r0, Det(c0, c1, c2), Det(r0, c1, c2));
  }

  lemma SecondRoot(r0: V3, c1: V3, c2: V3, sqrt: real -> real) returns (r1: V3)
    requires IsSqrt(sqrt) && Det(r0, c1, c2) != 0.0
    ensures var u := Rest(c1, r0); RootAt(sqrt, u) && r1 == Row(u, sqrt) && Det(r0, r1, c2) != 0.0
  {
    var u := Rest(c1, r0);
    DetShearSecond(r0, c1, c2, -Dot(r0, c1));
    DetZero(r0, u, c2);
    SqrtAt(sqrt, u);
    var len := Length(u, sqrt);
    r1 := Row(u, sqrt);
    Unit(u, len);
    DetScaleSecond(len, r0, r1, c2);
    RowKeepsDet(sqrt, u, len, r1, Det(r0, u, c2), Det(r0, r1, c2));
  }

  lemma ThirdRoot(r0: V3, r1: V3, c2: V3, sqrt: real -> real)
    requires IsSqrt(sqrt) && Det(r0, r1, c2) != 0.0
    ensures RootAt(sqrt, Rest(Rest(c2, r0), r1))
  {
    var u := Rest(c2, r0);
    DetShearThird(r0, r1, c2, r0, -Dot(r0, c2));
    DetShearThird(r0, r1, u, r1, -Dot(r1, u));
    DetZero(r0, r1, Rest(u, r1));
    SqrtAt(sqrt, Rest(u, r1));
  }

  /** For a square root of all numbers, every non-singular matrix goes through: no length is zero. */
  lemma SqrtServes(c0: V3, c1: V3, c2: V3, sqrt: real -> real)
    requires IsSqrt(sqrt) && Det(c0, c1, c2) != 0.0
    ensures RootsFor(c0, c1, c2, sqrt)
  {
    var r0 := FirstRoot(c0, c1, c2, sqrt);
    var r1 := SecondRoot(r0, c1, c2, sqrt);
    ThirdRoot(r0, r1, c2, sqrt);
  }

  lemma RowOfUnit(v: V3, sqrt: real -> real)
    requires Dot(v, v) == 1.0 && sqrt(1.0) == 1.0
    ensures RootAt(sqrt, v) && Row(v, sqrt) == v
  {
    assert 1.0 / Length(v, sqrt) == 1.0;
    ScaleByOne(v);
  }

  lemma ScaleByOne(v: V3)
    ensures Scale(1.0, v) == v && Mul(1.0, 1.0) == 1.0
  {}

  lemma RestOfPerpendicular(c: V3, r: V3)
    requires Dot(r, c) == 0.0
    ensures Rest(c, r) == c
  {}

  /** For rotations and reflections, one root is enough. */
  lemma OrthonormalHasRoots(r0: V3, r1: V3, r2: V3, sqrt: real -> real)
    requires Orthonormal(r0, r1, r2) && sqrt(1.0) == 1.0
    ensures RootsFor(r0, r1, r2, sqrt)
  {
    RowOfUnit(r0, sqrt);
    RowOfUnit(r1, sqrt);
    RowOfUnit(r2, sqrt);
    RestOfPerpendicular(r1, r0);
    RestOfPerpendicular(r2, r0);
    RestOfPerpendicular(r2, r1);
  }

  // ---- The decomposition is unique ----

  lemma SameSquare(a: real, b: real)
    requires Mul(a, a) == Mul(b, b) && ((a > 0.0 && b > 0.0) || (a < 0.0 && b < 0.0))
    ensures a == b
  {}

  lemma CancelFactor(s: real, x: real, y: real)
    requires s != 0.0 && Mul(s, x) == Mul(s, y)
    ensures x == y
  {}

  lemma Cancel(s: real, a: V3, b: V3)
    requires s != 0.0 && Scale(s, a) == Scale(s, b)
    ensures a == b
  {}

  lemma SelfDot(s: real, r: V3)
    requires Dot(r, r) == 1.0
    ensures Dot(Scale(s, r), Scale(s, r)) == Mul(s, s)
  {}

  /** A vector is a multiple of a unit vector, with a given sign, in one way only. */
  lemma UniqueMultiple(s: real, r: V3, s': real, r': V3)
    requires Scale(s, r) == Scale(s', r') && Dot(r, r) == 1.0 && Dot(r', r') == 1.0
    requires (s > 0.0 && s' > 0.0) || (s < 0.0 && s' < 0.0)
    ensures s == s' && r == r'
  {
    SelfDot(s, r);
    SelfDot(s', r');
    SameSquare(s, s');
    Cancel(s, r, r');
  }

  /** With r a unit vector at right angles to w, the part of s(w + h r) along r is s h. */
  lemma Along(c: V3, s: real, w: V3, h: real, r: V3)
    requires c == Scale(s, Add(w, Scale(h, r))) && Dot(r, r) == 1.0 && Dot(r, w) == 0.0
    ensures Dot(r, c) == Mul(s, h)
    ensures Combine(c, 1.0, r, -Dot(r, c)) == Scale(s, w)
  {
    Expand(s, w, h, r);
    DotSym(r, c);
    DotAdd(Scale(s, w), Scale(Mul(s, h), r), r);
    DotScale(s, w, r);
    DotSym(r, w);
    MulZero(s, 0.0);
    DotScale(Mul(s, h), r, r);
    TakeAway(c, r, Dot(r, c), Scale(s, w));
  }

  lemma UniqueSecond(c: V3, s: real, w: V3, h: real, s': real, w': V3, h': real, r: V3)
    requires c == Scale(s, Add(w, Scale(h, r))) && c == Scale(s', Add(w', Scale(h', r)))
    requires Dot(r, r) == 1.0 && Dot(r, w) == 0.0 && Dot(r, w') == 0.0 && Dot(w, w) == 1.0 && Dot(w', w') == 1.0
    requires (s > 0.0 && s' > 0.0) || (s < 0.0 && s' < 0.0)
    ensures s == s' && w == w' && h == h'
  {
    Along(c, s, w, h, r);
    Along(c, s', w', h', r);
    UniqueMultiple(s, w, s', w');
    CancelFactor(s, h, h');
  }

  lemma PerpendicularSum(r: V3, w: V3, h: real, q: V3)
    requires Dot(r, w) == 0.0 && Dot(r, q) == 0.0
    ensures Dot(r, Add(w, Scale(h, q))) == 0.0
  {}

  lemma UniqueThird(c: V3, s: real, w: V3, h: real, k: real, s': real, w': V3, h': real, k': real, r: V3, q: V3)
    requires c == Scale(s, Add(Add(w, Scale(h, r)), Scale(k, q)))
    requires c == Scale(s', Add(Add(w', Scale(h', r)), Scale(k', q)))
    requires Orthonormal(r, q, w) && Orthonormal(r, q, w')
    requires (s > 0.0 && s' > 0.0) || (s < 0.0 && s' < 0.0)
    ensures s == s' && w == w' && h == h' && k == k'
  {
    DotSym(q, r);
    PerpendicularSum(q, w, h, r);
    PerpendicularSum(q, w', h', r);
    Along(c, s, Add(w, Scale(h, r)), k, q);
    Along(c, s', Add(w', Scale(h', r)), k', q);
    UniqueSecond(Combine(c, 1.0, q, -Dot(q, c)), s, w, h, s', w', h', r);
    CancelFactor(s, k, k');
  }

  /** The determinant of the columns is the product of the scales. */
  lemma DetIsProduct(c0: V3, c1: V3, c2: V3, p: Parts)
    requires Decomposes(c0, c1, c2, p)
    ensures Det(c0, c1, c2) == Mul(p.scale.x, Mul(p.scale.y, p.scale.z))
  {
    var v := Add(p.r2, Scale(p.shear.y, p.r0));
    var v1, v2 := Add(p.r1, Scale(p.shear.x, p.r0)), Add(v, Scale(p.shear.z, p.r1));
    CombineIsAdd(p.r1, p.r0, p.shear.x);
    CombineIsAdd(p.r2, p.r0, p.shear.y);
    CombineIsAdd(v, p.r1, p.shear.z);
    DetShearSecond(p.r0, p.r1, v2, p.shear.x);
    DetShearThird(p.r0, p.r1, v, p.r1, p.shear.z);
    DetShearThird(p.r0, p.r1, p.r2, p.r0, p.shear.y);
    assert Det(p.r0, v1, v2) == 1.0;
    DetScaleThird(p.scale.z, p.r0, v1, v2);
    DetScaleSecond(p.scale.y, p.r0, v1, c2);
    DetScaleFirst(p.scale.x, p.r0, c1, c2);
  }

  lemma SignOfProduct(s: V3)
    requires SameSign(s)
    ensures Mul(s.x, Mul(s.y, s.z)) > 0.0 <==> s.x > 0.0
  {}

  /** A non-degenerate matrix has exactly one decomposition. */
  lemma DecompositionUnique(c0: V3, c1: V3, c2: V3, p: Parts, q: Parts)
    requires Decomposes(c0, c1, c2, p) && Decomposes(c0, c1, c2, q)
    ensures p == q
  {
    DetIsProduct(c0, c1, c2, p);
    DetIsProduct(c0, c1, c2, q);
    SignOfProduct(p.scale);
    SignOfProduct(q.scale);
    UniqueMultiple(p.scale.x, p.r0, q.scale.x, q.r0);
    UniqueSecond(c1, p.scale.y, p.r1, p.shear.x, q.scale.y, q.r1, q.shear.x, p.r0);
    UniqueThird(c2, p.scale.z, p.r2, p.shear.y, p.shear.z, q.scale.z, q.r2, q.shear.y, q.shear.z, p.r0, p.r1);
  }

  // ---- The 4x4 matrix ----

  predicate Is4x4(m: array2<real>) {
    m.Length0 == 4 && m.Length1 == 4
  }

  /** The upper three elements of column `j`. */
  function Column(m: array2<real>, j: nat): V3
    requires Is4x4(m) && j < 4
    reads m
  {
    V3(m[0, j], m[1, j], m[2, j])
  }

  /** The same after division by element (3, 3). */
  function UnitColumn(m: array2<real>, j: nat): V3
    requires Is4x4(m) && j < 4 && m[3, 3] != 0.0
    reads m
  {
    V3(m[0, j] / m[3, 3], m[1, j] / m[3, 3], m[2, j] / m[3, 3])
  }

  /** Determinant, expanded along the last row. */
  function Det4(m: array2<real>): real
    requires Is4x4(m)
    reads m
  {
    var c0, c1, c2, c3 := Column(m, 0), Column(m, 1), Column(m, 2), Column(m, 3);
    Mul(m[3, 3], Det(c0, c1, c2)) - Mul(m[3, 2], Det(c0, c1, c3))
    + Mul(m[3, 1], Det(c0, c2, c3)) - Mul(m[3, 0], Det(c1, c2, c3))
  }

  lemma ScaledColumn(c: V3, u: V3, w: real)
    requires w != 0.0 && u == V3(c.x / w, c.y / w, c.z / w)
    ensures c == Scale(w, u)
  {}

  /** Dividing a matrix by a number does not change whether it is singular. */
  lemma SingularEitherWay(w: real, u0: V3, u1: V3, u2: V3)
    requires w != 0.0
    ensures Det(Scale(w, u0), Scale(w, u1), Scale(w, u2)) == 0.0 <==> Det(u0, u1, u2) == 0.0
  {
    DetScaleFirst(w, u0, Scale(w, u1), Scale(w, u2));
    DetScaleSecond(w, u0, u1, Scale(w, u2));
    DetScaleThird(w, u0, u1, u2);
    var d := Det(u0, u1, u2);
    MulZero(w, d);
    MulZero(w, Mul(w, d));
    MulZero(w, Mul(w, Mul(w, d)));
  }

  datatype Decomposition = Invalid | Valid(translation: V3, parts: Parts)

  /** Element (r, c) comes before (j, i) in the order of the loop below. */
  predicate Before(r: int, c: int, j: int, i: int) { c < i || (c == i && r < j) }

  /** The first loop of the constructor: every element is divided by the original (3, 3),
      although the divisor sits in the matrix being rewritten. */
  method DivideByLast(m: array2<real>)
    requires Is4x4(m) && m[3, 3] != 0.0
    modifies m
    ensures forall r, c | 0 <= r < 4 && 0 <= c < 4 :: m[r, c] == old(m[r, c]) / old(m[3, 3])
  {
    for i := 0 to 4
      invariant forall r, c | 0 <= r < 4 && 0 <= c < 4 ::
                  m[r, c] == if c < i then old(m[r, c]) / old(m[3, 3]) else old(m[r, c])
    {
      for j := 0 to 4
        invariant forall r, c | 0 <= r < 4 && 0 <= c < 4 ::
                    m[r, c] == if Before(r, c, j, i) then old(m[r, c]) / old(m[3, 3]) else old(m[r, c])
      {
        m[j, i] := m[j, i] / m[3, 3];
      }
    }
  }

  method Copy(m: array2<real>) returns (c: array2<real>)
    requires Is4x4(m)
    ensures Is4x4(c) && fresh(c)
    ensures forall i, j | 0 <= i < 4 && 0 <= j < 4 :: c[i, j] == m[i, j]
  {
    c := new real[4, 4]((i, j) reads m requires 0 <= i < 4 && 0 <= j < 4 && Is4x4(m) => m[i, j]);
  }

  /** Determinant of the matrix with its last row replaced by (0, 0, 0, 1). */
  method PerspectiveDeterminant(m: array2<real>) returns (det: real)
    requires Is4x4(m)
    ensures det == Det(Column(m, 0), Column(m, 1), Column(m, 2))
  {
    var perspective := Copy(m);
    for i := 0 to 3
      invariant forall r, c | 0 <= r < 4 && 0 <= c < 4 :: perspective[r, c] == if r == 3 && c < i then 0.0 else m[r, c]
    {
      perspective[3, i] := 0.0;
    }
    perspective[3, 3] := 1.0;
    assert Column(perspective, 0) == Column(m, 0);
    assert Column(perspective, 1) == Column(m, 1);
    assert Column(perspective, 2) == Column(m, 2);
    LastRowUnit(perspective);
    det := Det4(perspective);
  }

  predicate Singular(m: array2<real>)
    requires Is4x4(m)
    reads m
  {
    m[3, 3] == 0.0 || Det(Column(m, 0), Column(m, 1), Column(m, 2)) == 0.0
  }

  /** The constructor, up to the rotation rows from which the quaternion is read off. */
  method Decompose(matrix: array2<real>, sqrt: real -> real) returns (d: Decomposition)
    requires Is4x4(matrix)
    requires !Singular(matrix) ==>
               RootsFor(UnitColumn(matrix, 0), UnitColumn(matrix, 1), UnitColumn(matrix, 2), sqrt)
    ensures d.Valid? <==> !Singular(matrix)
    ensures d.Valid? ==> d.translation == UnitColumn(matrix, 3)
    ensures d.Valid? ==> Decomposes(UnitColumn(matrix, 0), UnitColumn(matrix, 1), UnitColumn(matrix, 2), d.parts)
  {
    if matrix[3, 3] == 0.0 {
      return Invalid;
    }
    var m := Copy(matrix);
    DivideByLast(m);
    ghost var u0, u1, u2 := UnitColumn(matrix, 0), UnitColumn(matrix, 1), UnitColumn(matrix, 2);
    assert Column(m, 0) == u0 && Column(m, 1) == u1 && Column(m, 2) == u2 && Column(m, 3) == UnitColumn(matrix, 3);
    SingularIff(matrix, u0, u1, u2);
    var determinant := PerspectiveDeterminant(m);
    if determinant == 0.0 {
      return Invalid;
    }
    d := Factor(m, sqrt);
  }

  /** The rest of the constructor, on the divided matrix. */
  method Factor(m: array2<real>, sqrt: real -> real) returns (d: Decomposition)
    requires Is4x4(m) && RootsFor(Column(m, 0), Column(m, 1), Column(m, 2), sqrt)
    modifies m
    ensures d.Valid? && d.translation == old(Column(m, 3))
    ensures Decomposes(old(Column(m, 0)), old(Column(m, 1)), old(Column(m, 2)), d.parts)
  {
    ClearLastRow(m);
    var translation := Column(m, 3);
    ClearTranslation(m);
    var parts := GramSchmidt(Column(m, 0), Column(m, 1), Column(m, 2), sqrt);
    d := Valid(translation, parts);
  }

  /** The last row, once the perspective has been taken from it. */
  method ClearLastRow(m: array2<real>)
    requires Is4x4(m)
    modifies m
    ensures forall j: nat | j < 4 :: Column(m, j) == old(Column(m, j))
  {
    if m[3, 0] != 0.0 || m[3, 1] != 0.0 || m[3, 2] != 0.0 {
      m[3, 0], m[3, 1], m[3, 2] := 0.0, 0.0, 0.0;
      m[3, 3] := 1.0;
    }
  }

  method ClearTranslation(m: array2<real>)
    requires Is4x4(m)
    modifies m
    ensures forall j: nat | j < 3 :: Column(m, j) == old(Column(m, j))
  {
    m[0, 3], m[1, 3], m[2, 3] := 0.0, 0.0, 0.0;
  }

  lemma SingularIff(matrix: array2<real>, u0: V3, u1: V3, u2: V3)
    requires Is4x4(matrix) && matrix[3, 3] != 0.0
    requires u0 == UnitColumn(matrix, 0) && u1 == UnitColumn(matrix, 1) && u2 == UnitColumn(matrix, 2)
    ensures Det(Column(matrix, 0), Column(matrix, 1), Column(matrix, 2)) == 0.0 <==> Det(u0, u1, u2) == 0.0
  {
    ScaledColumn(Column(matrix, 0), u0, matrix[3, 3]);
    ScaledColumn(Column(matrix, 1), u1, matrix[3, 3]);
    ScaledColumn(Column(matrix, 2), u2, matrix[3, 3]);
    SingularEitherWay(matrix[3, 3], u0, u1, u2);
  }

  lemma LastRowUnit(m: array2<real>)
    requires Is4x4(m) && m[3, 0] == 0.0 && m[3, 1] == 0.0 && m[3, 2] == 0.0 && m[3, 3] == 1.0
    ensures Det4(m) == Det(Column(m, 0), Column(m, 1), Column(m, 2))
  {}
}
