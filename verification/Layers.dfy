/** Layer trees: what each layer is to see when the tree is prerolled, and what is to be painted. */
module Layers {
  // ---- Rectangles, half-open, as in Skia ----

  datatype Point = Point(x: real, y: real)

  datatype Rect = Rect(left: real, top: real, right: real, bottom: real)

  const EMPTY := Rect(0.0, 0.0, 0.0, 0.0)

  predicate IsEmpty(r: Rect) { !(r.left < r.right && r.top < r.bottom) }

  predicate Contains(r: Rect, p: Point) { r.left <= p.x < r.right && r.top <= p.y < r.bottom }

  function Max(a: real, b: real): real { if a < b then b else a }

  function Min(a: real, b: real): real { if b < a then b else a }

  function Meet(a: Rect, b: Rect): Rect {
    Rect(Max(a.left, b.left), Max(a.top, b.top), Min(a.right, b.right), Min(a.bottom, b.bottom))
  }

  /** `intersect` succeeds, and only then changes the rectangle. */
  predicate Overlap(a: Rect, b: Rect) { !IsEmpty(Meet(a, b)) }

  function Join(a: Rect, b: Rect): Rect {
    if IsEmpty(b) then a
    else if IsEmpty(a) then b
    else Rect(Min(a.left, b.left), Min(a.top, b.top), Max(a.right, b.right), Max(a.bottom, b.bottom))
  }

  /** `makeOffset`. */
  function Offset(r: Rect, dx: real, dy: real): Rect {
    Rect(r.left + dx, r.top + dy, r.right + dx, r.bottom + dy)
  }

  lemma MeetContains(a: Rect, b: Rect, p: Point)
    ensures Contains(Meet(a, b), p) <==> Contains(a, p) && Contains(b, p)
    ensures Contains(a, p) && Contains(b, p) ==> Overlap(a, b)
  {}

  lemma JoinContains(a: Rect, b: Rect, p: Point)
    ensures Contains(a, p) || Contains(b, p) ==> Contains(Join(a, b), p)
  {}

  // ---- Trees ----

  datatype Shape = RectShape(bounds: Rect) | RRectShape(id: nat, bounds: Rect) | PathShape(id: nat, bounds: Rect)

  datatype Mutator = ClipBy(shape: Shape) | OpacityBy(alpha: nat) | MoveBy(dx: real, dy: real)

  datatype Layer =
    | Container(children: seq<Layer>)
    | Clip(shape: Shape, usesSaveLayer: bool, children: seq<Layer>)
    | SaveLayer(readsBack: bool, children: seq<Layer>)
    | Elevated(elevation: real, children: seq<Layer>)
    | Opacity(alpha: nat, dx: real, dy: real, children: seq<Layer>)
    | SystemComposited(alpha: nat, elevation: real, children: seq<Layer>)
    | Picture(id: nat, bounds: Rect)
    | PlatformView(id: nat, bounds: Rect)
    | ChildScene(id: nat, bounds: Rect)

  /** An opacity layer as it is built: all that is added to it goes into one inner container. */
  function OpacityLayer(alpha: nat, dx: real, dy: real, added: seq<Layer>): Layer {
    Opacity(alpha, dx, dy, [Container(added)])
  }

  predicate IsLeaf(l: Layer) { l.Picture? || l.PlatformView? || l.ChildScene? }

  function Children(l: Layer): (ls: seq<Layer>)
    ensures forall c | c in ls :: c < l
  {
    if IsLeaf(l) then [] else l.children
  }

  /** The part of the preroll context that is inherited down the tree. */
  datatype Env = Env(cullRect: Rect, mutators: seq<Mutator>, totalElevation: real, isOpaque: bool,
                     physicalDepth: real, embeds: bool)

  const OPAQUE: nat := 255

  function ClampElevation(elevation: real, parentElevation: real, maxElevation: real): real {
    if maxElevation > -1.0 && parentElevation + elevation > maxElevation then maxElevation - parentElevation
    else elevation
  }

  function Raised(e: Env, elevation: real): Env {
    e.(totalElevation := e.totalElevation + ClampElevation(elevation, e.totalElevation, e.physicalDepth))
  }

  function Faded(e: Env, alpha: nat): Env {
    e.(mutators := e.mutators + [OpacityBy(alpha)], isOpaque := e.isOpaque && alpha == OPAQUE)
  }

  /** The cull rectangle does not move with what is culled by it. */
  function Moved(e: Env, dx: real, dy: real): Env { e.(mutators := e.mutators + [MoveBy(dx, dy)]) }

  function Clipped(e: Env, shape: Shape): Env {
    e.(cullRect := Meet(e.cullRect, shape.bounds), mutators := e.mutators + [ClipBy(shape)])
  }

  /** Children outside the cull rectangle are not visited. */
  predicate Enters(l: Layer, e: Env) { l.Clip? ==> Overlap(e.cullRect, l.shape.bounds) }

  /** What the children of `l` inherit where `l` itself inherits `e`. */
  function Inside(l: Layer, e: Env): Env {
    match l
    case Clip(shape, _, _) => Clipped(e, shape)
    case Elevated(elevation, _) => Raised(e, elevation)
    case Opacity(alpha, dx, dy, _) => Faded(Moved(e, dx, dy), alpha)
    case SystemComposited(alpha, elevation, _) => Raised(Faded(e, alpha), elevation)
    case _ => e
  }

  // ---- Leaves and what they see ----

  /** A leaf, by the child indices that lead to it from the root, and what it inherits. */
  datatype Visit = Visit(path: seq<nat>, leaf: Layer, env: Env)

  /** The leaves visited below the layer at `at`, in order. */
  function Visits(l: Layer, e: Env, at: seq<nat>): seq<Visit>
    decreases l, 1
  {
    if IsLeaf(l) then [Visit(at, l, e)]
    else if Enters(l, e) then AllVisits(Children(l), Inside(l, e), at)
    else []
  }

  function AllVisits(ls: seq<Layer>, e: Env, at: seq<nat>): seq<Visit>
    decreases ls, 0
  {
    if ls == [] then []
    else
      var n := |ls| - 1;
      AllVisits(ls[..n], e, at) + Visits(ls[n], e, at + [n])
  }

  /** The path ends at a leaf. */
  predicate Reaches(l: Layer, path: seq<nat>)
    decreases path
  {
    if path == [] then IsLeaf(l)
    else path[0] < |Children(l)| && Reaches(Children(l)[path[0]], path[1..])
  }

  function LeafAt(l: Layer, path: seq<nat>): Layer
    requires Reaches(l, path)
    decreases path
  {
    if path == [] then l else LeafAt(Children(l)[path[0]], path[1..])
  }

  /** What the layers on the path make of `e`; no others are looked at. */
  function EnvAt(l: Layer, e: Env, path: seq<nat>): Env
    requires Reaches(l, path)
    decreases path
  {
    if path == [] then e else EnvAt(Children(l)[path[0]], Inside(l, e), path[1..])
  }

  /** No layer on the path turns preroll away. */
  predicate Visited(l: Layer, e: Env, path: seq<nat>)
    requires Reaches(l, path)
    decreases path
  {
    path == [] || (Enters(l, e) && Visited(Children(l)[path[0]], Inside(l, e), path[1..]))
  }

  ghost predicate IsVisitAt(l: Layer, e: Env, path: seq<nat>, v: Visit) {
    Reaches(l, path) && Visited(l, e, path) && v.leaf == LeafAt(l, path) && v.env == EnvAt(l, e, path)
  }

  lemma {:induction false} ChildOfVisit(ls: seq<Layer>, e: Env, at: seq<nat>, v: Visit) returns (i: nat)
    requires v in AllVisits(ls, e, at)
    ensures i < |ls| && v in Visits(ls[i], e, at + [i])
    decreases ls
  {
    var n := |ls| - 1;
    if v in Visits(ls[n], e, at + [n]) {
      i := n;
    } else {
      i := ChildOfVisit(ls[..n], e, at, v);
    }
  }

  lemma {:induction false} VisitOfChild(ls: seq<Layer>, e: Env, at: seq<nat>, i: nat, v: Visit)
    requires i < |ls| && v in Visits(ls[i], e, at + [i])
    ensures v in AllVisits(ls, e, at)
    decreases ls
  {
    if i == |ls| - 1 {
    } else {
      VisitOfChild(ls[..|ls| - 1], e, at, i, v);
    }
  }

  lemma {:induction false} PathOfVisit(l: Layer, e: Env, at: seq<nat>, v: Visit) returns (path: seq<nat>)
    requires v in Visits(l, e, at)
    ensures v.path == at + path && IsVisitAt(l, e, path, v)
    decreases l
  {
    if IsLeaf(l) {
      path := [];
    } else {
      var i := ChildOfVisit(Children(l), Inside(l, e), at, v);
      var rest := PathOfVisit(Children(l)[i], Inside(l, e), at + [i], v);
      path := LongerPath(l, e, i, rest);
      Rejoin(at, i, rest);
    }
  }

  lemma {:induction false} VisitOfPath(l: Layer, e: Env, at: seq<nat>, path: seq<nat>, v: Visit)
    requires IsVisitAt(l, e, path, v) && v.path == at + path
    ensures v in Visits(l, e, at)
    decreases path
  {
    if path == [] {
      assert at + path == at;
    } else {
      assert at + path == at + [path[0]] + path[1..];
      VisitOfPath(Children(l)[path[0]], Inside(l, e), at + [path[0]], path[1..], v);
      VisitOfChild(Children(l), Inside(l, e), at, path[0], v);
    }
  }

  /** The leaf at a path is visited, seeing `v.env`, exactly when no layer above it turns preroll away and
      that is what those layers amount to: siblings do not matter. */
  lemma VisitedIff(root: Layer, e: Env, v: Visit)
    ensures v in Visits(root, e, []) <==> IsVisitAt(root, e, v.path, v)
  {
    assert [] + v.path == v.path;
    if v in Visits(root, e, []) {
      var path := PathOfVisit(root, e, [], v);
      assert [] + path == path;
    }
    if IsVisitAt(root, e, v.path, v) { VisitOfPath(root, e, [], v.path, v); }
  }

  /** The inner container of an opacity layer is one more step on the way, and changes nothing on it. */
  lemma InnerContainer(alpha: nat, dx: real, dy: real, added: seq<Layer>, e: Env, i: nat, rest: seq<nat>)
    requires i < |added| && Reaches(added[i], rest)
    ensures var l, path, d := OpacityLayer(alpha, dx, dy, added), [0, i] + rest, Faded(Moved(e, dx, dy), alpha);
            && Reaches(l, path) && LeafAt(l, path) == LeafAt(added[i], rest)
            && EnvAt(l, e, path) == EnvAt(added[i], d, rest)
            && (Visited(l, e, path) <==> Visited(added[i], d, rest))
  {
    var l, inner := OpacityLayer(alpha, dx, dy, added), Container(added);
    assert ([0, i] + rest)[1..] == [i] + rest && ([i] + rest)[1..] == rest;
    assert Children(l) == [inner] && Children(inner) == added;
    assert Reaches(inner, [i] + rest);
  }

  // ---- Each leaf once, in order ----

  /** The first path is left of the second: where they part, it takes an earlier child. */
  ghost predicate LeftOf(a: seq<nat>, b: seq<nat>) {
    exists n: nat :: PartsAt(a, b, n)
  }

  predicate PartsAt(a: seq<nat>, b: seq<nat>, n: nat) { n < |a| && n < |b| && a[..n] == b[..n] && a[n] < b[n] }

  ghost predicate LeftToRight(paths: seq<seq<nat>>) {
    forall i, j | 0 <= i < j < |paths| :: LeftOf(paths[i], paths[j])
  }

  function VisitPaths(vs: seq<Visit>): (paths: seq<seq<nat>>)
    ensures |paths| == |vs| && forall i | 0 <= i < |vs| :: paths[i] == vs[i].path
  {
    seq(|vs|, i requires 0 <= i < |vs| => vs[i].path)
  }

  lemma VisitBelow(l: Layer, e: Env, at: seq<nat>, v: Visit)
    requires v in Visits(l, e, at)
    ensures at <= v.path
  {
    var path := PathOfVisit(l, e, at, v);
  }

  /** Leaves are visited from left to right, and so none twice. */
  lemma {:induction false} VisitsInOrder(l: Layer, e: Env, at: seq<nat>)
    ensures LeftToRight(VisitPaths(Visits(l, e, at)))
    decreases l, 1
  {
    if IsLeaf(l) {
    } else if Enters(l, e) {
      AllVisitsInOrder(Children(l), Inside(l, e), at);
    }
  }

  lemma {:induction false} AllVisitsInOrder(ls: seq<Layer>, e: Env, at: seq<nat>)
    ensures LeftToRight(VisitPaths(AllVisits(ls, e, at)))
    decreases ls, 0
  {
    if ls == [] {
    } else {
      var n := |ls| - 1;
      var a, b := AllVisits(ls[..n], e, at), Visits(ls[n], e, at + [n]);
      AllVisitsInOrder(ls[..n], e, at);
      VisitsInOrder(ls[n], e, at + [n]);
      forall u, v | u in a && v in b ensures LeftOf(u.path, v.path) {
        var i := ChildOfVisit(ls[..n], e, at, u);
        VisitBelow(ls[i], e, at + [i], u);
        VisitBelow(ls[n], e, at + [n], v);
        PartedBelow(at, i, u.path, n, v.path);
      }
      InOrderConcat(a, b);
    }
  }

  lemma PartedBelow(at: seq<nat>, i: nat, a: seq<nat>, j: nat, b: seq<nat>)
    requires at + [i] <= a && at + [j] <= b && i < j
    ensures LeftOf(a, b)
  {
    assert a[..|at|] == (at + [i])[..|at|] == at && b[..|at|] == (at + [j])[..|at|] == at;
    assert a[|at|] == (at + [i])[|at|] && b[|at|] == (at + [j])[|at|];
    assert PartsAt(a, b, |at|);
  }

  lemma InOrderConcat(a: seq<Visit>, b: seq<Visit>)
    requires LeftToRight(VisitPaths(a)) && LeftToRight(VisitPaths(b))
    requires forall u, v | u in a && v in b :: LeftOf(u.path, v.path)
    ensures LeftToRight(VisitPaths(a + b))
  {
    var p, x, y := VisitPaths(a + b), VisitPaths(a), VisitPaths(b);
    assert forall i | 0 <= i < |a| :: p[i] == x[i] && a[i] in a;
    assert forall i | 0 <= i < |b| :: p[|a| + i] == y[i] && b[i] in b;
    forall i, j | 0 <= i < j < |p| ensures LeftOf(p[i], p[j]) {
      if j < |a| {
        assert LeftOf(x[i], x[j]);
      } else if |a| <= i {
        assert LeftOf(y[i - |a|], y[j - |a|]);
      } else {
        assert LeftOf(a[i].path, b[j - |a|].path);
      }
    }
  }

  predicate Distinct(paths: seq<seq<nat>>) { forall i, j | 0 <= i < j < |paths| :: paths[i] != paths[j] }

  /** No path is visited twice. */
  lemma VisitsOnce(l: Layer, e: Env, at: seq<nat>)
    ensures Distinct(VisitPaths(Visits(l, e, at)))
  {
    VisitsInOrder(l, e, at);
    InOrderDistinct(VisitPaths(Visits(l, e, at)));
  }

  lemma InOrderDistinct(paths: seq<seq<nat>>)
    requires LeftToRight(paths)
    ensures Distinct(paths)
  {
    forall i, j | 0 <= i < j < |paths| ensures paths[i] != paths[j] {
      assert LeftOf(paths[i], paths[j]);
    }
  }

  // ---- Elevation ----

  predicate WithinDepth(e: Env) { e.physicalDepth > -1.0 && e.totalElevation <= e.physicalDepth }

  /** No layer is raised out of the frame, however elevations add up. */
  lemma {:induction false} ElevationBounded(l: Layer, e: Env, path: seq<nat>)
    requires Reaches(l, path) && WithinDepth(e)
    ensures WithinDepth(EnvAt(l, e, path))
    decreases path
  {
    if path == [] {
    } else {
      ElevationBounded(Children(l)[path[0]], Inside(l, e), path[1..]);
    }
  }

  function OwnElevation(l: Layer): real { if l.Elevated? || l.SystemComposited? then l.elevation else 0.0 }

  /** What the layers on a path add up to, without clamping. */
  function PathElevation(l: Layer, path: seq<nat>): real
    requires Reaches(l, path)
    decreases path
  {
    if path == [] then 0.0 else OwnElevation(l) + PathElevation(Children(l)[path[0]], path[1..])
  }

  /** No layer on the path lowers what is above it. */
  predicate Rising(l: Layer, path: seq<nat>)
    requires Reaches(l, path)
    decreases path
  {
    path == [] || (OwnElevation(l) >= 0.0 && Rising(Children(l)[path[0]], path[1..]))
  }

  /** Without a physical depth, elevations just add up along the path. */
  lemma {:induction false} ElevationAddsUp(l: Layer, e: Env, path: seq<nat>)
    requires Reaches(l, path) && e.physicalDepth <= -1.0
    ensures EnvAt(l, e, path).totalElevation == e.totalElevation + PathElevation(l, path)
    decreases path
  {
    if path == [] {
    } else {
      ElevationAddsUp(Children(l)[path[0]], Inside(l, e), path[1..]);
    }
  }

  /** The least that the layers below any layer on the path add up to, and no more than nothing. */
  function Dip(l: Layer, path: seq<nat>): (dip: real)
    requires Reaches(l, path)
    ensures dip <= 0.0
    decreases path
  {
    if path == [] then 0.0
    else
      var c := Children(l)[path[0]];
      Min(PathElevation(c, path[1..]), Dip(c, path[1..]))
  }

  /** With one, the elevation is the sum, or what is left of the depth after the deepest dip below it. */
  lemma {:induction false} ClampedElevation(l: Layer, e: Env, path: seq<nat>)
    requires Reaches(l, path) && WithinDepth(e)
    ensures EnvAt(l, e, path).totalElevation ==
            Min(e.totalElevation + PathElevation(l, path), e.physicalDepth + Dip(l, path))
    decreases path
  {
    if path == [] {
    } else {
      ClampedElevation(Children(l)[path[0]], Inside(l, e), path[1..]);
    }
  }

  lemma {:induction false} RisingHasNoDip(l: Layer, path: seq<nat>)
    requires Reaches(l, path) && Rising(l, path)
    ensures PathElevation(l, path) >= 0.0 && Dip(l, path) == 0.0
    decreases path
  {
    if path == [] {
    } else {
      RisingHasNoDip(Children(l)[path[0]], path[1..]);
    }
  }

  /** For elevations that are not negative, clamping at every layer comes to the same as clamping once. */
  lemma ClampedOnce(l: Layer, e: Env, path: seq<nat>)
    requires Reaches(l, path) && WithinDepth(e) && Rising(l, path)
    ensures EnvAt(l, e, path).totalElevation == Min(e.totalElevation + PathElevation(l, path), e.physicalDepth)
  {
    ClampedElevation(l, e, path);
    RisingHasNoDip(l, path);
  }

  // ---- Mutators ----

  function OwnMutators(l: Layer): seq<Mutator> {
    match l
    case Clip(shape, _, _) => [ClipBy(shape)]
    case Opacity(alpha, dx, dy, _) => [MoveBy(dx, dy), OpacityBy(alpha)]
    case SystemComposited(alpha, _, _) => [OpacityBy(alpha)]
    case _ => []
  }

  function PathMutators(l: Layer, path: seq<nat>): seq<Mutator>
    requires Reaches(l, path)
    decreases path
  {
    if path == [] then [] else OwnMutators(l) + PathMutators(Children(l)[path[0]], path[1..])
  }

  predicate InClips(mutators: seq<Mutator>, p: Point) {
    forall i | 0 <= i < |mutators| :: mutators[i].ClipBy? ==> Contains(mutators[i].shape.bounds, p)
  }

  predicate AllOpaque(mutators: seq<Mutator>) {
    forall i | 0 <= i < |mutators| :: mutators[i].OpacityBy? ==> mutators[i].alpha == 255
  }

  lemma InClipsConcat(a: seq<Mutator>, b: seq<Mutator>, p: Point)
    ensures InClips(a + b, p) <==> InClips(a, p) && InClips(b, p)
  {
    if InClips(a + b, p) {
      assert forall i | 0 <= i < |a| :: a[i] == (a + b)[i];
      assert forall i | 0 <= i < |b| :: b[i] == (a + b)[|a| + i];
    }
  }

  lemma AllOpaqueConcat(a: seq<Mutator>, b: seq<Mutator>)
    ensures AllOpaque(a + b) <==> AllOpaque(a) && AllOpaque(b)
  {
    if AllOpaque(a + b) {
      assert forall i | 0 <= i < |a| :: a[i] == (a + b)[i];
      assert forall i | 0 <= i < |b| :: b[i] == (a + b)[|a| + i];
    }
  }

  /** `v` was reached from `e` through the mutators `since`: its cull rectangle holds a point exactly when
      that of `e` and every clip passed do, and it is opaque exactly when `e` and every layer passed are. */
  ghost predicate Narrowed(e: Env, since: seq<Mutator>, v: Env) {
    && v.mutators == e.mutators + since
    && (v.isOpaque <==> e.isOpaque && AllOpaque(since))
    && forall p :: Contains(v.cullRect, p) <==> Contains(e.cullRect, p) && InClips(since, p)
  }

  lemma InsideNarrows(l: Layer, e: Env)
    ensures Narrowed(e, OwnMutators(l), Inside(l, e))
  {
    var since := OwnMutators(l);
    match l
    case Clip(shape, _, _) =>
      forall p ensures Contains(Inside(l, e).cullRect, p) <==> Contains(e.cullRect, p) && InClips(since, p) {
        MeetContains(e.cullRect, shape.bounds, p);
        assert InClips(since, p) <==> Contains(since[0].shape.bounds, p);
      }
    case Opacity(alpha, dx, dy, _) =>
      assert since[1] == OpacityBy(alpha) && e.mutators + [MoveBy(dx, dy)] + [OpacityBy(alpha)] == e.mutators + since;
    case SystemComposited(alpha, _, _) =>
      assert since[0] == OpacityBy(alpha);
    case _ =>
      assert e.mutators + [] == e.mutators;
  }

  lemma NarrowedTrans(e: Env, a: seq<Mutator>, d: Env, b: seq<Mutator>, v: Env)
    requires Narrowed(e, a, d) && Narrowed(d, b, v)
    ensures Narrowed(e, a + b, v)
  {
    assert e.mutators + (a + b) == e.mutators + a + b;
    AllOpaqueConcat(a, b);
    forall p ensures Contains(v.cullRect, p) <==> Contains(e.cullRect, p) && InClips(a + b, p) {
      InClipsConcat(a, b, p);
      assert Contains(d.cullRect, p) <==> Contains(e.cullRect, p) && InClips(a, p);
    }
  }

  /** At every path: the mutators of the layers passed, in order; a cull rectangle that is exactly the root's
      cut down by the clips among them; and opaqueness that no translucent layer has ended. */
  lemma {:induction false} PathNarrows(l: Layer, e: Env, path: seq<nat>)
    requires Reaches(l, path)
    ensures Narrowed(e, PathMutators(l, path), EnvAt(l, e, path))
    decreases path
  {
    if path == [] {
      assert e.mutators + [] == e.mutators;
    } else {
      var c, d := Children(l)[path[0]], Inside(l, e);
      PathNarrows(c, d, path[1..]);
      InsideNarrows(l, e);
      NarrowedTrans(e, OwnMutators(l), d, PathMutators(c, path[1..]), EnvAt(l, e, path));
    }
  }

  // ---- What is culled ----

  predicate HasClip(l: Layer, path: seq<nat>)
    requires Reaches(l, path)
    decreases path
  {
    path != [] && (l.Clip? || HasClip(Children(l)[path[0]], path[1..]))
  }

  lemma {:induction false} NoClipIsVisited(l: Layer, e: Env, path: seq<nat>)
    requires Reaches(l, path) && !HasClip(l, path)
    ensures Visited(l, e, path)
    decreases path
  {
    if path == [] {
    } else {
      NoClipIsVisited(Children(l)[path[0]], Inside(l, e), path[1..]);
    }
  }

  lemma {:induction false} SharedPointIsVisited(l: Layer, e: Env, path: seq<nat>, q: Point)
    requires Reaches(l, path) && Contains(e.cullRect, q) && InClips(PathMutators(l, path), q)
    ensures Visited(l, e, path)
    decreases path
  {
    if path == [] {
    } else {
      var own, below := OwnMutators(l), PathMutators(Children(l)[path[0]], path[1..]);
      InClipsConcat(own, below, q);
      InsideNarrows(l, e);
      if l.Clip? {
        assert own[0] == ClipBy(l.shape);
        MeetContains(e.cullRect, l.shape.bounds, q);
      }
      SharedPointIsVisited(Children(l)[path[0]], Inside(l, e), path[1..], q);
    }
  }

  lemma {:induction false} VisitedIsNotEmpty(l: Layer, e: Env, path: seq<nat>)
    requires Reaches(l, path) && Visited(l, e, path) && (HasClip(l, path) || !IsEmpty(e.cullRect))
    ensures !IsEmpty(EnvAt(l, e, path).cullRect)
    decreases path
  {
    if path == [] {
    } else {
      VisitedIsNotEmpty(Children(l)[path[0]], Inside(l, e), path[1..]);
    }
  }

  /** A point of the root's cull rectangle is in every clip on the path, each in its own coordinates. */
  ghost predicate SharesPoint(l: Layer, e: Env, path: seq<nat>)
    requires Reaches(l, path)
  {
    exists q :: Contains(e.cullRect, q) && InClips(PathMutators(l, path), q)
  }

  /** A leaf is visited if and only if there is no clip above it, or the clips above it and the cull rectangle
      have a point in common. */
  lemma VisitedIffShared(l: Layer, e: Env, path: seq<nat>)
    requires Reaches(l, path)
    ensures Visited(l, e, path) <==> !HasClip(l, path) || SharesPoint(l, e, path)
  {
    if !HasClip(l, path) {
      NoClipIsVisited(l, e, path);
    } else if Visited(l, e, path) {
      VisitedIsNotEmpty(l, e, path);
      PathNarrows(l, e, path);
      var cull := EnvAt(l, e, path).cullRect;
      assert Contains(cull, Point(cull.left, cull.top));
    } else if SharesPoint(l, e, path) {
      var q :| Contains(e.cullRect, q) && InClips(PathMutators(l, path), q);
      SharedPointIsVisited(l, e, path, q);
    }
  }

  /** A point of a layer in the coordinates of its children. */
  function InnerPoint(l: Layer, p: Point): Point { if l.Opacity? then Point(p.x - l.dx, p.y - l.dy) else p }

  /** The paint bounds of a layer whose children have the bounds `joined`. */
  function OwnBounds(l: Layer, e: Env, joined: Rect): Rect {
    match l
    case Picture(_, bounds) => bounds
    case PlatformView(_, bounds) => bounds
    case ChildScene(_, bounds) => if e.isOpaque then EMPTY else bounds
    case Clip(shape, _, _) => if Overlap(joined, shape.bounds) then Meet(joined, shape.bounds) else EMPTY
    case Opacity(_, dx, dy, _) => Offset(joined, dx, dy)
    case _ => joined
  }

  /** The leaf draws at `p`. A child scene that is opaque draws nothing here: the system compositor shows it. */
  predicate Draws(l: Layer, e: Env, p: Point)
    requires IsLeaf(l)
  {
    Contains(l.bounds, p) && !(l.ChildScene? && e.isOpaque)
  }

  /** The leaf at the path draws at `p`, and no clip above it hides that: what the user is to see. */
  predicate Shows(l: Layer, e: Env, path: seq<nat>, p: Point)
    requires Reaches(l, path)
    decreases path
  {
    if path == [] then Draws(l, e, p)
    else
      && (l.Clip? ==> Contains(l.shape.bounds, p))
      && Shows(Children(l)[path[0]], Inside(l, e), path[1..], InnerPoint(l, p))
  }

  /** No clip on the path is below a layer that moves it. */
  predicate ClipsStay(l: Layer, path: seq<nat>)
    requires Reaches(l, path)
    decreases path
  {
    path == [] ||
    var c := Children(l)[path[0]];
    && (l.Opacity? && (l.dx != 0.0 || l.dy != 0.0) ==> !HasClip(c, path[1..]))
    && ClipsStay(c, path[1..])
  }

  /** Where no clip is moved, culling is safe: a leaf that shows a point of the cull rectangle is visited. */
  lemma {:induction false} CullingIsSafe(l: Layer, e: Env, path: seq<nat>, p: Point)
    requires Reaches(l, path) && ClipsStay(l, path) && Contains(e.cullRect, p) && Shows(l, e, path, p)
    ensures Visited(l, e, path)
    decreases path
  {
    if path == [] {
    } else {
      var c, d := Children(l)[path[0]], Inside(l, e);
      if l.Clip? { MeetContains(e.cullRect, l.shape.bounds, p); }
      if !HasClip(c, path[1..]) {
        NoClipIsVisited(c, d, path[1..]);
      } else {
        CullingIsSafe(c, d, path[1..], p);
      }
    }
  }

  const GIANT := Rect(-1000000000.0, -1000000000.0, 1000000000.0, 1000000000.0)

  /** A picture 50 by 50, moved to where an outer clip leaves room for it, in an inner clip that fits it. */
  const PICTURE := Picture(0, Rect(-100.0, 0.0, -50.0, 50.0))
  const FITTED := Clip(RectShape(Rect(-100.0, 0.0, -50.0, 50.0)), false, [PICTURE])
  const INNER := Container([FITTED])
  const MOVED := OpacityLayer(255, 100.0, 0.0, [FITTED])
  const OUTER := Clip(RectShape(Rect(0.0, 0.0, 50.0, 50.0)), false, [MOVED])

  lemma FittedShows(e: Env, q: Point)
    requires q == Point(-90.0, 10.0)
    ensures Reaches(INNER, [0, 0]) && Shows(INNER, e, [0, 0], q)
    ensures e.cullRect == Rect(0.0, 0.0, 50.0, 50.0) ==> !Visited(INNER, e, [0, 0])
  {
    assert [0, 0][1..] == [0] && [0][1..] == [];
    assert Reaches(PICTURE, []) && Reaches(FITTED, [0]);
    assert Shows(PICTURE, Inside(FITTED, e), [], q) && Shows(FITTED, e, [0], q);
    assert e.cullRect == Rect(0.0, 0.0, 50.0, 50.0) ==> !Enters(FITTED, e) && !Visited(FITTED, e, [0]);
  }

  /** Where a clip is moved, what shows can be lost: the cull rectangle is not moved with it. */
  lemma MovedClipIsLost(e: Env, p: Point)
    requires e.cullRect == GIANT && p == Point(10.0, 10.0)
    ensures Reaches(OUTER, [0, 0, 0, 0]) && Contains(e.cullRect, p) && Shows(OUTER, e, [0, 0, 0, 0], p)
    ensures !Visited(OUTER, e, [0, 0, 0, 0])
    ensures PathMutators(OUTER, [0, 0, 0, 0]) ==
            [ClipBy(OUTER.shape), MoveBy(100.0, 0.0), OpacityBy(255), ClipBy(FITTED.shape)]
  {
    var e1 := Inside(OUTER, e);
    var e2 := Inside(MOVED, e1);
    FittedShows(e2, Point(-90.0, 10.0));
    assert [0, 0, 0, 0][1..] == [0, 0, 0] && [0, 0, 0][1..] == [0, 0];
    assert Children(MOVED) == [INNER] && Children(OUTER) == [MOVED];
    assert InnerPoint(MOVED, p) == Point(-90.0, 10.0) && e2.cullRect == Rect(0.0, 0.0, 50.0, 50.0);
    assert Reaches(MOVED, [0, 0, 0]) && Shows(MOVED, e1, [0, 0, 0], p) && !Visited(MOVED, e1, [0, 0, 0]);
    assert PathMutators(INNER, [0, 0]) == [ClipBy(FITTED.shape)];
    assert PathMutators(MOVED, [0, 0, 0]) == [MoveBy(100.0, 0.0), OpacityBy(255), ClipBy(FITTED.shape)];
  }

  // ---- Paint bounds ----

  /** A layer after preroll: the fields that preroll sets. */
  datatype Node = Node(layer: Layer, bounds: Rect, composite: bool, insideClip: bool, nodes: seq<Node>)

  function JoinAll(nodes: seq<Node>): Rect {
    if nodes == [] then EMPTY else Join(JoinAll(nodes[..|nodes| - 1]), nodes[|nodes| - 1].bounds)
  }

  predicate AnyComposite(nodes: seq<Node>) { exists i | 0 <= i < |nodes| :: nodes[i].composite }

  /** The tree as preroll leaves it. */
  function Prerolled(l: Layer, e: Env): Node
    decreases l, 1
  {
    if IsLeaf(l) then Node(l, OwnBounds(l, e, EMPTY), l.ChildScene?, true, [])
    else if !Enters(l, e) then Node(l, EMPTY, false, false, [])
    else
      var nodes := PrerolledAll(l.children, Inside(l, e));
      Node(l, OwnBounds(l, e, JoinAll(nodes)), AnyComposite(nodes), true, nodes)
  }

  function PrerolledAll(ls: seq<Layer>, e: Env): (nodes: seq<Node>)
    ensures |nodes| == |ls| && forall i | 0 <= i < |ls| :: nodes[i] == Prerolled(ls[i], e)
    decreases ls, 0
  {
    if ls == [] then []
    else
      var init := ls[..|ls| - 1];
      PrerolledAll(init, e) + [Prerolled(ls[|ls| - 1], e)]
  }

  /** A leaf that is drawn, by its path. */
  datatype Drawn = Drawn(path: seq<nat>, leaf: Layer)

  /** Painting: subtrees with empty bounds and clips without visible children are passed over. */
  function Painted(n: Node, at: seq<nat>): seq<Drawn>
    decreases n, 1
  {
    if IsLeaf(n.layer) then [Drawn(at, n.layer)] else if n.insideClip then AllPainted(n.nodes, at) else []
  }

  function AllPainted(nodes: seq<Node>, at: seq<nat>): seq<Drawn>
    decreases nodes, 0
  {
    if nodes == [] then []
    else
      var n := |nodes| - 1;
      AllPainted(nodes[..n], at) + if IsEmpty(nodes[n].bounds) then [] else Painted(nodes[n], at + [n])
  }

  lemma {:induction false} JoinAllContains(nodes: seq<Node>, i: nat, p: Point)
    requires i < |nodes| && Contains(nodes[i].bounds, p)
    ensures Contains(JoinAll(nodes), p)
    decreases nodes
  {
    var n := |nodes| - 1;
    JoinContains(JoinAll(nodes[..n]), nodes[n].bounds, p);
    if i == n {
    } else {
      JoinAllContains(nodes[..n], i, p);
    }
  }

  lemma {:induction false} PaintedOfChild(nodes: seq<Node>, at: seq<nat>, i: nat, d: Drawn)
    requires i < |nodes| && !IsEmpty(nodes[i].bounds) && d in Painted(nodes[i], at + [i])
    ensures d in AllPainted(nodes, at)
    decreases nodes
  {
    if i == |nodes| - 1 {
    } else {
      PaintedOfChild(nodes[..|nodes| - 1], at, i, d);
    }
  }

  /** What one layer adds to what its children guarantee. */
  lemma BoundsOfParent(l: Layer, e: Env, i: nat, p: Point)
    requires !IsLeaf(l) && Enters(l, e) && i < |Children(l)|
    requires Contains(Prerolled(Children(l)[i], Inside(l, e)).bounds, InnerPoint(l, p))
    requires l.Clip? ==> Contains(l.shape.bounds, p)
    ensures Contains(Prerolled(l, e).bounds, p)
  {
    var nodes := PrerolledAll(Children(l), Inside(l, e));
    JoinAllContains(nodes, i, InnerPoint(l, p));
    if l.Clip? { MeetContains(JoinAll(nodes), l.shape.bounds, p); }
  }

  lemma NotEmpty(r: Rect, p: Point)
    requires Contains(r, p)
    ensures !IsEmpty(r)
  {}

  /** The bounds that a plain container of the same children would have. */
  function ChildBounds(l: Layer, e: Env): Rect
    requires !IsLeaf(l)
  {
    Prerolled(Container(l.children), Inside(l, e)).bounds
  }

  /** Paint bounds, exactly: a leaf's are where it draws; a layer that turns preroll away has none; any other has those
      that its children have together, moved by its offset and cut to its clip. */
  lemma {:induction false} BoundsIff(l: Layer, e: Env, p: Point)
    ensures Contains(Prerolled(l, e).bounds, p) <==>
              if IsLeaf(l) then Draws(l, e, p)
              else
                && (l.Clip? ==> Overlap(e.cullRect, l.shape.bounds) && Contains(l.shape.bounds, p))
                && Contains(ChildBounds(l, e), InnerPoint(l, p))
    ensures Prerolled(l, e).insideClip <==> l.Clip? ==> Overlap(e.cullRect, l.shape.bounds)
  {
    if IsLeaf(l) {
    } else {
      assert Enters(l, e) ==> Prerolled(l, e).bounds == OwnBounds(l, e, ChildBounds(l, e));
      if l.Clip? { MeetContains(ChildBounds(l, e), l.shape.bounds, p); }
    }
  }

  /** Rectangle `a`, if there is anything in it, lies in `b`. */
  predicate Within(a: Rect, b: Rect) {
    IsEmpty(a) || (b.left <= a.left && b.top <= a.top && a.right <= b.right && a.bottom <= b.bottom)
  }

  lemma {:induction false} JoinAllLeast(nodes: seq<Node>, r: Rect)
    requires forall i | 0 <= i < |nodes| :: Within(nodes[i].bounds, r)
    ensures Within(JoinAll(nodes), r)
  {
    if nodes == [] {
    } else {
      JoinAllLeast(nodes[..|nodes| - 1], r);
    }
  }

  lemma {:induction false} JoinAllHolds(nodes: seq<Node>, i: nat)
    requires i < |nodes|
    ensures Within(nodes[i].bounds, JoinAll(nodes))
    decreases nodes
  {
    var n := |nodes| - 1;
    if i == n {
    } else {
      JoinAllHolds(nodes[..n], i);
    }
  }

  /** What the children have together is the least rectangle that holds them all. */
  lemma {:induction false} ChildBoundsLeast(l: Layer, e: Env, r: Rect)
    requires !IsLeaf(l)
    ensures forall i | 0 <= i < |l.children| :: Within(Prerolled(l.children[i], Inside(l, e)).bounds, ChildBounds(l, e))
    ensures (forall i | 0 <= i < |l.children| :: Within(Prerolled(l.children[i], Inside(l, e)).bounds, r)) ==>
              Within(ChildBounds(l, e), r)
  {
    var nodes := PrerolledAll(l.children, Inside(l, e));
    assert ChildBounds(l, e) == JoinAll(nodes);
    forall i | 0 <= i < |l.children| ensures Within(nodes[i].bounds, JoinAll(nodes)) {
      JoinAllHolds(nodes, i);
    }
    if forall i | 0 <= i < |nodes| :: Within(nodes[i].bounds, r) { JoinAllLeast(nodes, r); }
  }

  /** A point that a visited leaf shows lies in the paint bounds of the layer. */
  lemma {:induction false} BoundsCover(l: Layer, e: Env, path: seq<nat>, p: Point)
    requires Reaches(l, path) && Visited(l, e, path) && Shows(l, e, path, p)
    ensures Contains(Prerolled(l, e).bounds, p)
    decreases path
  {
    if path == [] {
    } else {
      BoundsCover(Children(l)[path[0]], Inside(l, e), path[1..], InnerPoint(l, p));
      BoundsOfParent(l, e, path[0], p);
    }
  }

  lemma PaintedOfParent(l: Layer, e: Env, at: seq<nat>, i: nat, d: Drawn)
    requires !IsLeaf(l) && Enters(l, e) && i < |Children(l)|
    requires var n := Prerolled(Children(l)[i], Inside(l, e)); !IsEmpty(n.bounds) && d in Painted(n, at + [i])
    ensures d in Painted(Prerolled(l, e), at)
  {
    PaintedOfChild(PrerolledAll(Children(l), Inside(l, e)), at, i, d);
  }

  /** Every layer on the path, but the first, has something in its paint bounds. */
  predicate BoundsOnTheWay(l: Layer, e: Env, path: seq<nat>)
    requires Reaches(l, path)
    decreases path
  {
    path == [] ||
    var c, d := Children(l)[path[0]], Inside(l, e);
    !IsEmpty(Prerolled(c, d).bounds) && BoundsOnTheWay(c, d, path[1..])
  }

  lemma {:induction false} PaintedOfPath(l: Layer, e: Env, at: seq<nat>, path: seq<nat>, d: Drawn)
    requires Reaches(l, path) && Visited(l, e, path) && BoundsOnTheWay(l, e, path)
    requires d.path == at + path && d.leaf == LeafAt(l, path)
    ensures d in Painted(Prerolled(l, e), at)
    decreases path
  {
    if path == [] {
      assert at + [] == at;
    } else {
      var i, rest := path[0], path[1..];
      assert path == [i] + rest;
      Rejoin(at, i, rest);
      PaintedOfPath(Children(l)[i], Inside(l, e), at + [i], rest, d);
      PaintedOfParent(l, e, at, i, d);
    }
  }

  lemma {:induction false} ShownHasBounds(l: Layer, e: Env, path: seq<nat>, p: Point)
    requires Reaches(l, path) && Visited(l, e, path) && Shows(l, e, path, p)
    ensures BoundsOnTheWay(l, e, path)
    decreases path
  {
    if path == [] {
    } else {
      var c, e', rest, p' := Children(l)[path[0]], Inside(l, e), path[1..], InnerPoint(l, p);
      ShownHasBounds(c, e', rest, p');
      BoundsCover(c, e', rest, p');
      NotEmpty(Prerolled(c, e').bounds, p');
    }
  }

  /** Skipping empty bounds loses nothing: a visited leaf that shows a point is painted. */
  lemma PaintCovers(l: Layer, e: Env, at: seq<nat>, path: seq<nat>, p: Point, d: Drawn)
    requires Reaches(l, path) && Visited(l, e, path) && Shows(l, e, path, p)
    requires d.path == at + path && d.leaf == LeafAt(l, path)
    ensures d in Painted(Prerolled(l, e), at)
  {
    ShownHasBounds(l, e, path, p);
    PaintedOfPath(l, e, at, path, d);
  }

  /** What shows in the cull rectangle is painted, where no clip is moved. */
  lemma ShownIsPainted(root: Layer, e: Env, path: seq<nat>, p: Point)
    requires Reaches(root, path) && ClipsStay(root, path) && Contains(e.cullRect, p) && Shows(root, e, path, p)
    ensures !IsEmpty(Prerolled(root, e).bounds) && Drawn(path, LeafAt(root, path)) in Painted(Prerolled(root, e), [])
  {
    CullingIsSafe(root, e, path, p);
    BoundsCover(root, e, path, p);
    NotEmpty(Prerolled(root, e).bounds, p);
    assert [] + path == path;
    PaintCovers(root, e, [], path, p, Drawn(path, LeafAt(root, path)));
  }

  lemma {:induction false} ChildOfPainted(nodes: seq<Node>, at: seq<nat>, d: Drawn) returns (i: nat)
    requires d in AllPainted(nodes, at)
    ensures i < |nodes| && !IsEmpty(nodes[i].bounds) && d in Painted(nodes[i], at + [i])
    decreases nodes
  {
    var n := |nodes| - 1;
    if d in AllPainted(nodes[..n], at) {
      i := ChildOfPainted(nodes[..n], at, d);
    } else {
      i := n;
    }
  }

  /** Only visited leaves are painted, and only where all bounds on the way have something in them. */
  lemma {:induction false} PaintedIsVisited(l: Layer, e: Env, at: seq<nat>, d: Drawn) returns (path: seq<nat>)
    requires d in Painted(Prerolled(l, e), at)
    ensures d.path == at + path && Reaches(l, path) && Visited(l, e, path) && d.leaf == LeafAt(l, path)
    ensures BoundsOnTheWay(l, e, path)
    decreases l
  {
    if IsLeaf(l) {
      path := [];
    } else {
      var i := ChildOfParentPainted(l, e, at, d);
      var rest := PaintedIsVisited(Children(l)[i], Inside(l, e), at + [i], d);
      path := LongerPath(l, e, i, rest);
      Rejoin(at, i, rest);
    }
  }

  lemma ChildOfParentPainted(l: Layer, e: Env, at: seq<nat>, d: Drawn) returns (i: nat)
    requires !IsLeaf(l) && d in Painted(Prerolled(l, e), at)
    ensures Enters(l, e) && i < |Children(l)|
    ensures var n := Prerolled(Children(l)[i], Inside(l, e)); !IsEmpty(n.bounds) && d in Painted(n, at + [i])
  {
    i := ChildOfPainted(PrerolledAll(l.children, Inside(l, e)), at, d);
  }

  lemma Rejoin(at: seq<nat>, i: nat, rest: seq<nat>)
    ensures at + [i] + rest == at + ([i] + rest)
  {}

  lemma LongerPath(l: Layer, e: Env, i: nat, rest: seq<nat>) returns (path: seq<nat>)
    requires i < |Children(l)| && Reaches(Children(l)[i], rest)
    requires Enters(l, e) && Visited(Children(l)[i], Inside(l, e), rest)
    ensures path == [i] + rest && Reaches(l, path) && Visited(l, e, path)
    ensures LeafAt(l, path) == LeafAt(Children(l)[i], rest)
    ensures EnvAt(l, e, path) == EnvAt(Children(l)[i], Inside(l, e), rest)
  {
    path := [i] + rest;
    assert path[1..] == rest;
  }

  /** The leaf at a path is painted exactly if it is visited and all bounds on the way have something in them. */
  lemma PaintedIff(root: Layer, e: Env, d: Drawn)
    ensures d in Painted(Prerolled(root, e), []) <==>
            && Reaches(root, d.path) && d.leaf == LeafAt(root, d.path)
            && Visited(root, e, d.path) && BoundsOnTheWay(root, e, d.path)
  {
    assert [] + d.path == d.path;
    if d in Painted(Prerolled(root, e), []) {
      var found := PaintedIsVisited(root, e, [], d);
      assert [] + found == found;
    } else if Reaches(root, d.path) && d.leaf == LeafAt(root, d.path) {
      if Visited(root, e, d.path) && BoundsOnTheWay(root, e, d.path) { PaintedOfPath(root, e, [], d.path, d); }
    }
  }

  // ---- The order of painting ----

  function DrawnPaths(ds: seq<Drawn>): (paths: seq<seq<nat>>)
    ensures |paths| == |ds| && forall i | 0 <= i < |ds| :: paths[i] == ds[i].path
  {
    seq(|ds|, i requires 0 <= i < |ds| => ds[i].path)
  }

  /** What is left of `b` when some of its elements are taken out. */
  predicate IsSubsequence<T(==)>(a: seq<T>, b: seq<T>)
    decreases b
  {
    a == [] || (b != [] &&
                var init, n := b[..|b| - 1], |a| - 1;
                IsSubsequence(a, init) || (a[n] == b[|b| - 1] && IsSubsequence(a[..n], init)))
  }

  lemma {:induction false} SubsequenceConcat<T>(a: seq<T>, b: seq<T>, c: seq<T>, d: seq<T>)
    requires IsSubsequence(a, b) && IsSubsequence(c, d)
    ensures IsSubsequence(a + c, b + d)
    decreases d
  {
    if c == [] {
      assert a + c == a;
      SubsequenceGrows(a, b, d);
    } else {
      var m, n := |d| - 1, |c| - 1;
      assert (b + d)[..|b + d| - 1] == b + d[..m];
      assert (a + c)[..|a + c| - 1] == a + c[..n];
      if IsSubsequence(c, d[..m]) {
        SubsequenceConcat(a, b, c, d[..m]);
      } else {
        SubsequenceConcat(a, b, c[..n], d[..m]);
      }
    }
  }

  lemma {:induction false} SubsequenceGrows<T>(a: seq<T>, b: seq<T>, d: seq<T>)
    requires IsSubsequence(a, b)
    ensures IsSubsequence(a, b + d)
    decreases d
  {
    if d == [] {
      assert b + d == b;
    } else {
      SubsequenceGrows(a, b, d[..|d| - 1]);
      assert (b + d)[..|b + d| - 1] == b + d[..|d| - 1];
    }
  }

  lemma {:induction false} SubsequenceContains<T>(a: seq<T>, b: seq<T>, i: nat) returns (j: nat)
    requires IsSubsequence(a, b) && i < |a|
    ensures i <= j < |b| && a[i] == b[j]
    decreases b
  {
    var init, n := b[..|b| - 1], |a| - 1;
    if IsSubsequence(a, init) {
      j := SubsequenceContains(a, init, i);
    } else if i == n {
      j := |b| - 1;
      SubsequenceLength(a[..n], init);
    } else {
      j := SubsequenceContains(a[..n], init, i);
    }
  }

  lemma {:induction false} SubsequenceLength<T>(a: seq<T>, b: seq<T>)
    requires IsSubsequence(a, b)
    ensures |a| <= |b|
    decreases b
  {
    if a == [] {
    } else if IsSubsequence(a, b[..|b| - 1]) {
      SubsequenceLength(a, b[..|b| - 1]);
    } else {
      SubsequenceLength(a[..|a| - 1], b[..|b| - 1]);
    }
  }

  lemma {:induction false} SubsequenceInOrder(a: seq<seq<nat>>, b: seq<seq<nat>>)
    requires IsSubsequence(a, b) && LeftToRight(b)
    ensures LeftToRight(a)
    decreases b
  {
    if a == [] {
    } else {
      var init, n := b[..|b| - 1], |a| - 1;
      if IsSubsequence(a, init) {
        SubsequenceInOrder(a, init);
      } else {
        SubsequenceInOrder(a[..n], init);
        forall i, j | 0 <= i < j < |a| ensures LeftOf(a[i], a[j]) {
          if j < n {
            assert LeftOf(a[..n][i], a[..n][j]);
          } else {
            var k := SubsequenceContains(a[..n], init, i);
            assert LeftOf(b[k], b[|b| - 1]);
          }
        }
      }
    }
  }

  lemma PathsConcat(a: seq<Drawn>, b: seq<Drawn>, u: seq<Visit>, v: seq<Visit>)
    ensures DrawnPaths(a + b) == DrawnPaths(a) + DrawnPaths(b)
    ensures VisitPaths(u + v) == VisitPaths(u) + VisitPaths(v)
  {}

  /** Leaves are painted in the order in which they were visited. */
  lemma {:induction false} PaintedAsVisited(l: Layer, e: Env, at: seq<nat>)
    ensures IsSubsequence(DrawnPaths(Painted(Prerolled(l, e), at)), VisitPaths(Visits(l, e, at)))
    decreases l, 1
  {
    if IsLeaf(l) {
      var a, b := DrawnPaths(Painted(Prerolled(l, e), at)), VisitPaths(Visits(l, e, at));
      assert a == [at] && b == [at] && a[..0] == [];
    } else if Enters(l, e) {
      AllPaintedAsVisited(l.children, Inside(l, e), at);
    }
  }

  lemma {:induction false} AllPaintedAsVisited(ls: seq<Layer>, e: Env, at: seq<nat>)
    ensures IsSubsequence(DrawnPaths(AllPainted(PrerolledAll(ls, e), at)), VisitPaths(AllVisits(ls, e, at)))
    decreases ls, 0
  {
    if ls == [] {
    } else {
      var n := |ls| - 1;
      var nodes := PrerolledAll(ls, e);
      assert nodes[..n] == PrerolledAll(ls[..n], e);
      AllPaintedAsVisited(ls[..n], e, at);
      PaintedAsVisited(ls[n], e, at + [n]);
      var a, u, v := AllPainted(nodes[..n], at), AllVisits(ls[..n], e, at), Visits(ls[n], e, at + [n]);
      var b := if IsEmpty(nodes[n].bounds) then [] else Painted(nodes[n], at + [n]);
      PathsConcat(a, b, u, v);
      SubsequenceConcat(DrawnPaths(a), VisitPaths(u), DrawnPaths(b), VisitPaths(v));
    }
  }

  /** Painting goes from left to right and paints no leaf twice. */
  lemma PaintedInOrder(l: Layer, e: Env, at: seq<nat>)
    ensures LeftToRight(DrawnPaths(Painted(Prerolled(l, e), at)))
    ensures Distinct(DrawnPaths(Painted(Prerolled(l, e), at)))
  {
    PaintedAsVisited(l, e, at);
    VisitsInOrder(l, e, at);
    SubsequenceInOrder(DrawnPaths(Painted(Prerolled(l, e), at)), VisitPaths(Visits(l, e, at)));
    InOrderDistinct(DrawnPaths(Painted(Prerolled(l, e), at)));
  }

  /** A leaf that shows a point is painted if and only if it has no clip above it, or the clips above it and
      the cull rectangle have a point in common. */
  lemma ShownIsPaintedIff(root: Layer, e: Env, path: seq<nat>, p: Point)
    requires Reaches(root, path) && Shows(root, e, path, p)
    ensures Drawn(path, LeafAt(root, path)) in Painted(Prerolled(root, e), []) <==>
            !HasClip(root, path) || SharesPoint(root, e, path)
  {
    var d := Drawn(path, LeafAt(root, path));
    VisitedIffShared(root, e, path);
    assert [] + path == path;
    if Visited(root, e, path) { PaintCovers(root, e, [], path, p, d); }
    if d in Painted(Prerolled(root, e), []) {
      var found := PaintedIsVisited(root, e, [], d);
      assert [] + found == found;
    }
  }

  // ---- What is collected over the whole tree ----

  predicate AnyView(visits: seq<Visit>) { exists i | 0 <= i < |visits| :: visits[i].leaf.PlatformView? }

  predicate AnyScene(visits: seq<Visit>) { exists i | 0 <= i < |visits| :: visits[i].leaf.ChildScene? }

  /** A platform view as it is handed to the embedder. */
  datatype Embedded = Embedded(id: nat, mutators: seq<Mutator>)

  function Embeddings(visits: seq<Visit>): seq<Embedded> {
    if visits == [] then []
    else
      var v := visits[|visits| - 1];
      Embeddings(visits[..|visits| - 1]) + if v.leaf.PlatformView? then [Embedded(v.leaf.id, v.env.mutators)] else []
  }

  lemma {:induction false} EmbeddingsConcat(a: seq<Visit>, b: seq<Visit>)
    ensures Embeddings(a + b) == Embeddings(a) + Embeddings(b)
    decreases b
  {
    if b == [] {
      assert a + b == a;
    } else {
      var n := |b| - 1;
      EmbeddingsConcat(a, b[..n]);
      assert (a + b)[..|a + b| - 1] == a + b[..n];
    }
  }

  /** How many platform views there are among the leaves. */
  function ViewCount(visits: seq<Visit>): nat {
    if visits == [] then 0
    else ViewCount(visits[..|visits| - 1]) + if visits[|visits| - 1].leaf.PlatformView? then 1 else 0
  }

  lemma {:induction false} EmbeddingsCount(visits: seq<Visit>)
    ensures |Embeddings(visits)| == ViewCount(visits)
  {
    if visits == [] {
    } else {
      EmbeddingsCount(visits[..|visits| - 1]);
    }
  }

  lemma {:induction false} EmbeddingAt(visits: seq<Visit>, i: nat)
    requires i < |visits| && visits[i].leaf.PlatformView?
    ensures ViewCount(visits[..i]) < |Embeddings(visits)|
    ensures Embeddings(visits)[ViewCount(visits[..i])] == Embedded(visits[i].leaf.id, visits[i].env.mutators)
    decreases |visits|
  {
    var n := |visits| - 1;
    if i == n {
      EmbeddingsCount(visits[..n]);
    } else {
      EmbeddingAt(visits[..n], i);
      assert visits[..n][..i] == visits[..i];
    }
  }

  /** The embedder is handed as many views as are visited, each in its turn, with the mutators of the layers on its
      own path. */
  lemma EmbedderIsHanded(root: Layer, e: Env, i: nat)
    requires i < |Visits(root, e, [])| && Visits(root, e, [])[i].leaf.PlatformView?
    ensures var vs := Visits(root, e, []);
            var path, k := vs[i].path, ViewCount(vs[..i]);
            && |Embeddings(vs)| == ViewCount(vs) && k < ViewCount(vs)
            && Reaches(root, path) && LeafAt(root, path).PlatformView?
            && Embeddings(vs)[k] == Embedded(LeafAt(root, path).id, e.mutators + PathMutators(root, path))
  {
    var vs := Visits(root, e, []);
    EmbeddingsCount(vs);
    EmbeddingAt(vs, i);
    VisitedIff(root, e, vs[i]);
    PathNarrows(root, e, vs[i].path);
  }

  lemma AnyViewConcat(a: seq<Visit>, b: seq<Visit>)
    ensures AnyView(a + b) <==> AnyView(a) || AnyView(b)
  {
    if AnyView(a) {
      var i :| 0 <= i < |a| && a[i].leaf.PlatformView?;
      assert (a + b)[i] == a[i];
    }
    if AnyView(b) {
      var i :| 0 <= i < |b| && b[i].leaf.PlatformView?;
      assert (a + b)[|a| + i] == b[i];
    }
  }

  /** The surface is read back by a backdrop filter that no save layer separates from it. */
  predicate ReadsBack(l: Layer, e: Env)
    decreases l, 1
  {
    if IsLeaf(l) || !Enters(l, e) then false
    else if l.SaveLayer? then l.readsBack
    else if l.Opacity? || (l.Clip? && l.usesSaveLayer) then false
    else AnyReadsBack(l.children, Inside(l, e))
  }

  predicate AnyReadsBack(ls: seq<Layer>, e: Env)
    decreases ls, 0
  {
    ls != [] && (AnyReadsBack(ls[..|ls| - 1], e) || ReadsBack(ls[|ls| - 1], e))
  }

  /** The path leads to a layer, leaf or not. */
  predicate Leads(l: Layer, path: seq<nat>)
    decreases path
  {
    path == [] || (path[0] < |Children(l)| && Leads(Children(l)[path[0]], path[1..]))
  }

  function LayerAt(l: Layer, path: seq<nat>): Layer
    requires Leads(l, path)
    decreases path
  {
    if path == [] then l else LayerAt(Children(l)[path[0]], path[1..])
  }

  /** Layers whose children are drawn into a surface of their own. */
  predicate HasSurface(l: Layer) { l.SaveLayer? || l.Opacity? || (l.Clip? && l.usesSaveLayer) }

  /** Preroll comes to the end of the path, and no layer before that has a surface of its own. */
  predicate OnSurface(l: Layer, e: Env, path: seq<nat>)
    requires Leads(l, path)
    decreases path
  {
    path == [] || (!HasSurface(l) && Enters(l, e) && OnSurface(Children(l)[path[0]], Inside(l, e), path[1..]))
  }

  /** There is a backdrop filter at the path, and it filters the surface that `l` is drawn on. */
  predicate FiltersSurface(l: Layer, e: Env, path: seq<nat>) {
    Leads(l, path) && OnSurface(l, e, path) && LayerAt(l, path).SaveLayer? && LayerAt(l, path).readsBack
  }

  lemma {:induction false} AnyReadsBackIff(ls: seq<Layer>, e: Env)
    ensures AnyReadsBack(ls, e) <==> exists i | 0 <= i < |ls| :: ReadsBack(ls[i], e)
  {
    if ls == [] {
    } else {
      var n := |ls| - 1;
      AnyReadsBackIff(ls[..n], e);
      if AnyReadsBack(ls[..n], e) {
        var i :| 0 <= i < n && ReadsBack(ls[..n][i], e);
        assert ReadsBack(ls[i], e);
      }
      if i :| 0 <= i < |ls| && ReadsBack(ls[i], e) {
        assert i < n ==> ls[..n][i] == ls[i];
      }
    }
  }

  lemma {:induction false} FilterIsReadBack(l: Layer, e: Env, path: seq<nat>)
    requires FiltersSurface(l, e, path)
    ensures ReadsBack(l, e)
    decreases path
  {
    if path == [] {
    } else {
      FilterIsReadBack(Children(l)[path[0]], Inside(l, e), path[1..]);
      AnyReadsBackIff(l.children, Inside(l, e));
    }
  }

  lemma {:induction false} ReadBackHasFilter(l: Layer, e: Env) returns (path: seq<nat>)
    requires ReadsBack(l, e)
    ensures FiltersSurface(l, e, path)
    decreases l
  {
    if l.SaveLayer? {
      path := [];
    } else {
      AnyReadsBackIff(l.children, Inside(l, e));
      var i :| 0 <= i < |l.children| && ReadsBack(l.children[i], Inside(l, e));
      var rest := ReadBackHasFilter(l.children[i], Inside(l, e));
      path := [i] + rest;
      assert path[1..] == rest;
    }
  }

  /** The surface has to be read back exactly if preroll meets a backdrop filter on it. */
  lemma ReadsBackIff(l: Layer, e: Env)
    ensures ReadsBack(l, e) <==> exists path :: FiltersSurface(l, e, path)
  {
    if ReadsBack(l, e) {
      var path := ReadBackHasFilter(l, e);
    }
    if path :| FiltersSurface(l, e, path) { FilterIsReadBack(l, e, path); }
  }

  /** A layer needs the system compositor exactly when a child scene below it is visited. */
  lemma {:induction false} CompositeIff(l: Layer, e: Env, at: seq<nat>)
    ensures Prerolled(l, e).composite <==> AnyScene(Visits(l, e, at))
    decreases l, 1
  {
    if IsLeaf(l) {
      assert Visits(l, e, at)[0] == Visit(at, l, e);
    } else if Enters(l, e) {
      AnyCompositeIff(l.children, Inside(l, e), at);
    }
  }

  lemma {:induction false} AnyCompositeIff(ls: seq<Layer>, e: Env, at: seq<nat>)
    ensures AnyComposite(PrerolledAll(ls, e)) <==> AnyScene(AllVisits(ls, e, at))
    decreases ls, 0
  {
    if ls == [] {
    } else {
      var n := |ls| - 1;
      AnyCompositeIff(ls[..n], e, at);
      CompositeIff(ls[n], e, at + [n]);
      AnyCompositePush(PrerolledAll(ls[..n], e), Prerolled(ls[n], e));
      AnySceneConcat(AllVisits(ls[..n], e, at), Visits(ls[n], e, at + [n]));
    }
  }

  lemma AnyCompositePush(nodes: seq<Node>, n: Node)
    ensures AnyComposite(nodes + [n]) <==> AnyComposite(nodes) || n.composite
  {
    if AnyComposite(nodes) {
      var i :| 0 <= i < |nodes| && nodes[i].composite;
      assert (nodes + [n])[i].composite;
    }
    if n.composite { assert (nodes + [n])[|nodes|].composite; }
  }

  lemma AnySceneConcat(a: seq<Visit>, b: seq<Visit>)
    ensures AnyScene(a + b) <==> AnyScene(a) || AnyScene(b)
  {
    if AnyScene(a) {
      var i :| 0 <= i < |a| && a[i].leaf.ChildScene?;
      assert (a + b)[i] == a[i];
    }
    if AnyScene(b) {
      var i :| 0 <= i < |b| && b[i].leaf.ChildScene?;
      assert (a + b)[|a| + i] == b[i];
    }
  }
}
