/** The two walks over a layer tree: preroll, on a shared mutable context, and paint. */
module LayerPreroll {
  import opened Layers

  /** A context as a value: what is inherited, and what the walk collects. */
  datatype State = State(env: Env, visits: seq<Visit>, embedded: seq<Embedded>, hasPlatformView: bool, readback: bool)

  /** The state after prerolling leaves `visits`. */
  function Collected(s: State, visits: seq<Visit>, readsBack: bool): State {
    s.(visits := s.visits + visits,
       embedded := s.embedded + (if s.env.embeds then Embeddings(visits) else []),
       hasPlatformView := s.env.embeds && AnyView(visits),
       readback := s.readback || readsBack)
  }

  /** Preroll of a layer gives back all that is inherited, and adds what its visited leaves contribute. */
  function After(l: Layer, at: seq<nat>, s: State): State { Collected(s, Visits(l, s.env, at), ReadsBack(l, s.env)) }

  function AfterAll(ls: seq<Layer>, at: seq<nat>, s: State): State {
    Collected(s, AllVisits(ls, s.env, at), AnyReadsBack(ls, s.env))
  }

  lemma AfterNone(at: seq<nat>, s: State)
    requires !s.hasPlatformView
    ensures AfterAll([], at, s) == s
  {}

  /** One turn of the loop over children: the flag is cleared, the child prerolled, the flags joined. */
  lemma AfterPush(ls: seq<Layer>, l: Layer, at: seq<nat>, s: State)
    ensures var t := AfterAll(ls, at, s);
            var u := After(l, at + [|ls|], t.(hasPlatformView := false));
            AfterAll(ls + [l], at, s) == u.(hasPlatformView := t.hasPlatformView || u.hasPlatformView)
  {
    var a, b := AllVisits(ls, s.env, at), Visits(l, s.env, at + [|ls|]);
    assert (ls + [l])[..|ls|] == ls;
    assert s.visits + (a + b) == s.visits + a + b;
    EmbeddingsConcat(a, b);
    AnyViewConcat(a, b);
  }

  /** The children prerolled while `d` is inherited, and the inherited part put back. */
  function AfterIn(ls: seq<Layer>, at: seq<nat>, s: State, d: Env): State {
    AfterAll(ls, at, s.(env := d)).(env := s.env)
  }

  /** A layer that enters its children without a save layer. */
  predicate Plain(l: Layer, e: Env) {
    !IsLeaf(l) && Enters(l, e) && !l.SaveLayer? && !l.Opacity? && !(l.Clip? && l.usesSaveLayer)
  }

  lemma PlainAfter(l: Layer, at: seq<nat>, s: State)
    requires Plain(l, s.env)
    ensures AfterIn(l.children, at, s, Inside(l, s.env)) == After(l, at, s)
  {}

  lemma SavedAfter(l: Layer, at: seq<nat>, s: State)
    requires l.SaveLayer? || l.Opacity? || (l.Clip? && l.usesSaveLayer && Enters(l, s.env))
    ensures var t := AfterIn(l.children, at, s.(readback := false), Inside(l, s.env));
            t.(readback := s.readback || (l.SaveLayer? && l.readsBack)) == After(l, at, s)
  {}

  /** There is a platform view at the path, and preroll comes to it. */
  predicate VisitsView(l: Layer, e: Env, path: seq<nat>) {
    Reaches(l, path) && LeafAt(l, path).PlatformView? && Visited(l, e, path)
  }

  /** What a tree leaves behind in the context: all that was inherited as it was; the flag for platform views exactly if
      there is an embedder and a view is visited; the need for read-back exactly if there was one or preroll meets a
      backdrop filter on the surface; and nothing handed to an embedder that is not there. */
  lemma AfterIff(root: Layer, s: State)
    ensures var t := After(root, [], s);
            && t.env == s.env
            && (t.hasPlatformView <==> s.env.embeds && exists path :: VisitsView(root, s.env, path))
            && (t.readback <==> s.readback || exists path :: FiltersSurface(root, s.env, path))
            && t.embedded == s.embedded + if s.env.embeds then Embeddings(Visits(root, s.env, [])) else []
  {
    ReadsBackIff(root, s.env);
    AnyViewIff(root, s.env);
  }

  lemma AnyViewIff(root: Layer, e: Env)
    ensures AnyView(Visits(root, e, [])) <==> exists path :: VisitsView(root, e, path)
  {
    var vs := Visits(root, e, []);
    if AnyView(vs) {
      var i :| 0 <= i < |vs| && vs[i].leaf.PlatformView?;
      VisitedIff(root, e, vs[i]);
      assert VisitsView(root, e, vs[i].path);
    }
    if path :| VisitsView(root, e, path) {
      var v := Visit(path, LeafAt(root, path), EnvAt(root, e, path));
      VisitedIff(root, e, v);
      assert v in vs;
    }
  }

  class PrerollContext {
    var cullRect: Rect
    var mutatorsStack: seq<Mutator>
    var totalElevation: real
    var isOpaque: bool
    var surfaceNeedsReadback: bool
    var hasPlatformView: bool
    const framePhysicalDepth: real
    const hasViewEmbedder: bool
    var embedder: seq<Embedded>
    ghost var visits: seq<Visit>

    ghost function Inherited(): Env
      reads this
    {
      Env(cullRect, mutatorsStack, totalElevation, isOpaque, framePhysicalDepth, hasViewEmbedder)
    }

    ghost function View(): State
      reads this
    {
      State(Inherited(), visits, embedder, hasPlatformView, surfaceNeedsReadback)
    }

    constructor (cull: Rect, depth: real, embeds: bool)
      ensures View() == State(Env(cull, [], 0.0, true, depth, embeds), [], [], false, false)
    {
      cullRect, mutatorsStack, totalElevation, isOpaque := cull, [], 0.0, true;
      surfaceNeedsReadback, hasPlatformView := false, false;
      framePhysicalDepth, hasViewEmbedder := depth, embeds;
      embedder, visits := [], [];
    }
  }

  method Preroll(l: Layer, ghost at: seq<nat>, context: PrerollContext) returns (n: Node)
    requires !context.hasPlatformView
    modifies context
    ensures context.View() == After(l, at, old(context.View()))
    ensures n == Prerolled(l, old(context.Inherited()))
    decreases l, 3
  {
    match l
    case Clip(_, _, _) => n := PrerollClip(l, at, context);
    case SaveLayer(_, _) => n := PrerollSaveLayer(l, at, context);
    case Opacity(_, _, _, _) => n := PrerollOpacity(l, at, context);
    case SystemComposited(_, _, _) => n := PrerollSystemComposited(l, at, context);
    case Elevated(elevation, _) =>
      PlainAfter(l, at, context.View());
      n := PrerollElevated(l, at, elevation, context);
    case Container(_) =>
      PlainAfter(l, at, context.View());
      n := PrerollContainer(l, at, context);
    case _ => n := PrerollLeaf(l, at, context);
  }

  method PrerollLeaf(l: Layer, ghost at: seq<nat>, context: PrerollContext) returns (n: Node)
    requires IsLeaf(l) && !context.hasPlatformView
    modifies context
    ensures context.View() == After(l, at, old(context.View()))
    ensures n == Prerolled(l, old(context.Inherited()))
  {
    ghost var s := context.View();
    ghost var v := Visit(at, l, s.env);
    assert Embeddings([v]) == if l.PlatformView? then [Embedded(l.id, s.env.mutators)] else [];
    assert AnyView([v]) <==> [v][0].leaf.PlatformView?;
    context.visits := context.visits + [v];
    match l
    case PlatformView(id, bounds) =>
      if context.hasViewEmbedder {
        context.hasPlatformView := true;
        context.embedder := context.embedder + [Embedded(id, context.mutatorsStack)];
      }
      n := Node(l, bounds, false, true, []);
    case ChildScene(_, bounds) =>
      n := Node(l, if !context.isOpaque then bounds else EMPTY, true, true, []);
    case Picture(_, bounds) =>
      n := Node(l, bounds, false, true, []);
  }

  /** The loop over children. Its first assertion is the one the source checks at run time. */
  method PrerollChildren(layers: seq<Layer>, ghost at: seq<nat>, context: PrerollContext)
    returns (nodes: seq<Node>, bounds: Rect, composite: bool)
    requires !context.hasPlatformView
    modifies context
    ensures context.View() == AfterAll(layers, at, old(context.View()))
    ensures nodes == PrerolledAll(layers, old(context.Inherited()))
    ensures bounds == JoinAll(nodes) && composite == AnyComposite(nodes)
    decreases layers, 0
  {
    assert !context.hasPlatformView;
    var childHasPlatformView := false;
    nodes, bounds, composite := [], EMPTY, false;
    ghost var s := context.View();
    ProgressStarts(layers, at, s);
    for i := 0 to |layers|
      invariant Progress(layers, i, at, s, context.View(), childHasPlatformView, nodes, bounds, composite)
    {
      ghost var t := context.View();
      ProgressSteps(layers, i, at, s, t, childHasPlatformView, nodes, bounds, composite);
      context.hasPlatformView := false;
      var n := Preroll(layers[i], at + [i], context);
      assert context.View() == After(layers[i], at + [i], t.(hasPlatformView := false));
      assert n == Prerolled(layers[i], s.env);
      if n.composite {
        composite := true;
      }
      nodes, bounds := nodes + [n], Join(bounds, n.bounds);
      childHasPlatformView := childHasPlatformView || context.hasPlatformView;
    }
    ProgressEnds(layers, at, s, context.View(), childHasPlatformView, nodes, bounds, composite);
    context.hasPlatformView := childHasPlatformView;
  }

  /** The loop started in `s`; with the first `i` layers done it is in `t`, with these values in its variables. */
  ghost predicate Progress(layers: seq<Layer>, i: nat, at: seq<nat>, s: State, t: State, hasView: bool,
                           nodes: seq<Node>, bounds: Rect, composite: bool)
  {
    && i <= |layers|
    && t.(hasPlatformView := hasView) == AfterAll(layers[..i], at, s)
    && nodes == PrerolledAll(layers[..i], s.env)
    && bounds == JoinAll(nodes)
    && composite == AnyComposite(nodes)
  }

  lemma ProgressStarts(layers: seq<Layer>, at: seq<nat>, s: State)
    requires !s.hasPlatformView
    ensures Progress(layers, 0, at, s, s, false, [], EMPTY, false)
  {
    AfterNone(at, s);
  }

  lemma ProgressSteps(layers: seq<Layer>, i: nat, at: seq<nat>, s: State, t: State, hasView: bool,
                      nodes: seq<Node>, bounds: Rect, composite: bool)
    requires Progress(layers, i, at, s, t, hasView, nodes, bounds, composite) && i < |layers|
    ensures t.env == s.env
    ensures var u := After(layers[i], at + [i], t.(hasPlatformView := false));
            var n := Prerolled(layers[i], s.env);
            Progress(layers, i + 1, at, s, u, hasView || u.hasPlatformView, nodes + [n], Join(bounds, n.bounds),
                     composite || n.composite)
  {
    var ls, l := layers[..i], layers[i];
    assert layers[..i + 1] == ls + [l] && |ls| == i;
    AfterPush(ls, l, at, s);
    PrerolledPush(ls, l, s.env);
    AnyCompositePush(nodes, Prerolled(l, s.env));
    assert t.(hasPlatformView := false) == AfterAll(ls, at, s).(hasPlatformView := false);
  }

  lemma ProgressEnds(layers: seq<Layer>, at: seq<nat>, s: State, t: State, hasView: bool,
                     nodes: seq<Node>, bounds: Rect, composite: bool)
    requires Progress(layers, |layers|, at, s, t, hasView, nodes, bounds, composite)
    ensures t.(hasPlatformView := hasView) == AfterAll(layers, at, s) && nodes == PrerolledAll(layers, s.env)
    ensures bounds == JoinAll(nodes) && composite == AnyComposite(nodes)
  {
    assert layers[..|layers|] == layers;
  }

  lemma PrerolledPush(ls: seq<Layer>, l: Layer, e: Env)
    ensures var nodes, n := PrerolledAll(ls, e), Prerolled(l, e);
            PrerolledAll(ls + [l], e) == nodes + [n] && JoinAll(nodes + [n]) == Join(JoinAll(nodes), n.bounds)
  {}

  /** A container's own step: children, then bounds and compositing from theirs. */
  function Joined(l: Layer, nodes: seq<Node>): Node { Node(l, JoinAll(nodes), AnyComposite(nodes), true, nodes) }

  method PrerollContainer(l: Layer, ghost at: seq<nat>, context: PrerollContext) returns (n: Node)
    requires !IsLeaf(l) && !context.hasPlatformView
    modifies context
    ensures context.View() == AfterAll(l.children, at, old(context.View()))
    ensures n == Joined(l, PrerolledAll(l.children, old(context.Inherited())))
    decreases l, 0
  {
    var nodes, bounds, composite := PrerollChildren(l.children, at, context);
    n := Node(l, bounds, composite, true, nodes);
  }

  method PrerollClip(l: Layer, ghost at: seq<nat>, context: PrerollContext) returns (n: Node)
    requires l.Clip? && !context.hasPlatformView
    modifies context
    ensures context.View() == After(l, at, old(context.View()))
    ensures n == Prerolled(l, old(context.Inherited()))
    decreases l, 2
  {
    ghost var s := context.View();
    if !Overlap(context.cullRect, l.shape.bounds) {
      AfterNone(at, s);
      return Node(l, EMPTY, false, false, []);
    }
    if l.usesSaveLayer {
      SavedAfter(l, at, s);
      var previousReadback := context.surfaceNeedsReadback;
      context.surfaceNeedsReadback := false;
      n := PrerollClipped(l, at, context);
      context.surfaceNeedsReadback := previousReadback;
    } else {
      PlainAfter(l, at, s);
      n := PrerollClipped(l, at, context);
    }
  }

  /** The part of a clip layer's preroll inside its save layer, if it has one. */
  method PrerollClipped(l: Layer, ghost at: seq<nat>, context: PrerollContext) returns (n: Node)
    requires l.Clip? && Overlap(context.cullRect, l.shape.bounds) && !context.hasPlatformView
    modifies context
    ensures context.View() == AfterIn(l.children, at, old(context.View()), Inside(l, old(context.Inherited())))
    ensures n == Prerolled(l, old(context.Inherited()))
    decreases l, 1
  {
    ghost var s := context.View();
    var clip := l.shape.bounds;
    var previousCullRect := context.cullRect;
    context.cullRect := Meet(context.cullRect, clip);
    context.mutatorsStack := context.mutatorsStack + [ClipBy(l.shape)];
    assert context.View() == s.(env := Inside(l, s.env));
    var nodes, bounds, composite := PrerollChildren(l.children, at, context);
    if Overlap(bounds, clip) {
      n := Node(l, Meet(bounds, clip), composite, true, nodes);
    } else {
      n := Node(l, EMPTY, composite, true, nodes);
    }
    context.mutatorsStack := context.mutatorsStack[..|context.mutatorsStack| - 1];
    context.cullRect := previousCullRect;
    assert context.Inherited() == s.env;
  }

  method PrerollSaveLayer(l: Layer, ghost at: seq<nat>, context: PrerollContext) returns (n: Node)
    requires l.SaveLayer? && !context.hasPlatformView
    modifies context
    ensures context.View() == After(l, at, old(context.View()))
    ensures n == Prerolled(l, old(context.Inherited()))
    decreases l, 1
  {
    SavedAfter(l, at, context.View());
    var previousReadback := context.surfaceNeedsReadback;
    context.surfaceNeedsReadback := false;
    n := PrerollContainer(l, at, context);
    context.surfaceNeedsReadback := previousReadback || l.readsBack;
  }

  /** The elevated container, on which the system composited layer builds. */
  method PrerollElevated(l: Layer, ghost at: seq<nat>, elevation: real, context: PrerollContext) returns (n: Node)
    requires !IsLeaf(l) && !context.hasPlatformView
    modifies context
    ensures context.View() == AfterIn(l.children, at, old(context.View()), Raised(old(context.Inherited()), elevation))
    ensures n == Joined(l, PrerolledAll(l.children, Raised(old(context.Inherited()), elevation)))
    decreases l, 1
  {
    ghost var s := context.View();
    var parentElevation := context.totalElevation;
    var clamped := ClampElevation(elevation, parentElevation, context.framePhysicalDepth);
    context.totalElevation := context.totalElevation + clamped;
    assert context.View() == s.(env := Raised(s.env, elevation));
    n := PrerollContainer(l, at, context);
    context.totalElevation := parentElevation;
    assert context.Inherited() == s.env;
  }

  /** The opacity layer proper: offset and save layer, around the layer it extends. */
  method PrerollOpacity(l: Layer, ghost at: seq<nat>, context: PrerollContext) returns (n: Node)
    requires l.Opacity? && !context.hasPlatformView
    modifies context
    ensures context.View() == After(l, at, old(context.View()))
    ensures n == Prerolled(l, old(context.Inherited()))
    decreases l, 2
  {
    ghost var s := context.View();
    SavedAfter(l, at, s);
    context.mutatorsStack := context.mutatorsStack + [MoveBy(l.dx, l.dy)];
    var previousReadback := context.surfaceNeedsReadback;
    context.surfaceNeedsReadback := false;
    assert context.View() == s.(env := Moved(s.env, l.dx, l.dy), readback := false);
    n := PrerollOpacityBase(l, at, context);
    context.mutatorsStack := context.mutatorsStack[..|context.mutatorsStack| - 1];
    n := n.(bounds := Offset(n.bounds, l.dx, l.dy));
    context.surfaceNeedsReadback := previousReadback;
    assert context.Inherited() == s.env;
  }

  method PrerollOpacityBase(l: Layer, ghost at: seq<nat>, context: PrerollContext) returns (n: Node)
    requires l.Opacity? && !context.hasPlatformView
    modifies context
    ensures context.View() == AfterIn(l.children, at, old(context.View()), Faded(old(context.Inherited()), l.alpha))
    ensures n == Joined(l, PrerolledAll(l.children, Faded(old(context.Inherited()), l.alpha)))
    decreases l, 1
  {
    ghost var s := context.View();
    var parentIsOpaque := context.isOpaque;
    context.mutatorsStack := context.mutatorsStack + [OpacityBy(l.alpha)];
    context.isOpaque := parentIsOpaque && l.alpha == OPAQUE;
    assert context.View() == s.(env := Faded(s.env, l.alpha));
    n := PrerollContainer(l, at, context);
    context.isOpaque := parentIsOpaque;
    context.mutatorsStack := context.mutatorsStack[..|context.mutatorsStack| - 1];
    assert context.Inherited() == s.env;
  }

  method PrerollSystemComposited(l: Layer, ghost at: seq<nat>, context: PrerollContext) returns (n: Node)
    requires l.SystemComposited? && !context.hasPlatformView
    modifies context
    ensures context.View() == After(l, at, old(context.View()))
    ensures n == Prerolled(l, old(context.Inherited()))
    decreases l, 2
  {
    ghost var s := context.View();
    PlainAfter(l, at, s);
    var parentIsOpaque := context.isOpaque;
    context.mutatorsStack := context.mutatorsStack + [OpacityBy(l.alpha)];
    context.isOpaque := parentIsOpaque && l.alpha == OPAQUE;
    assert context.View() == s.(env := Faded(s.env, l.alpha));
    n := PrerollElevated(l, at, l.elevation, context);
    context.isOpaque := parentIsOpaque;
    context.mutatorsStack := context.mutatorsStack[..|context.mutatorsStack| - 1];
    assert context.Inherited() == s.env;
  }

  function Leaves(trace: seq<Drawn>): (leaves: seq<Layer>)
    ensures |leaves| == |trace| && forall i | 0 <= i < |trace| :: leaves[i] == trace[i].leaf
  {
    seq(|trace|, i requires 0 <= i < |trace| => trace[i].leaf)
  }

  class Canvas {
    var drawn: seq<Layer>
  }

  method Paint(n: Node, ghost at: seq<nat>, canvas: Canvas)
    modifies canvas
    ensures canvas.drawn == old(canvas.drawn) + Leaves(Painted(n, at))
    decreases n, 1
  {
    if IsLeaf(n.layer) {
      assert Leaves([Drawn(at, n.layer)]) == [n.layer];
      canvas.drawn := canvas.drawn + [n.layer];
    } else if n.insideClip {
      PaintChildren(n.nodes, at, canvas);
    }
  }

  method PaintChildren(nodes: seq<Node>, ghost at: seq<nat>, canvas: Canvas)
    modifies canvas
    ensures canvas.drawn == old(canvas.drawn) + Leaves(AllPainted(nodes, at))
    decreases nodes, 0
  {
    ghost var before := canvas.drawn;
    for i := 0 to |nodes|
      invariant canvas.drawn == before + Leaves(AllPainted(nodes[..i], at))
    {
      PaintedPush(before, nodes, at, i);
      if !IsEmpty(nodes[i].bounds) {
        Paint(nodes[i], at + [i], canvas);
      }
    }
    assert nodes[..|nodes|] == nodes;
  }

  lemma PaintedPush(before: seq<Layer>, nodes: seq<Node>, at: seq<nat>, i: nat)
    requires i < |nodes|
    ensures before + Leaves(AllPainted(nodes[..i + 1], at)) ==
            before + Leaves(AllPainted(nodes[..i], at)) +
            if IsEmpty(nodes[i].bounds) then [] else Leaves(Painted(nodes[i], at + [i]))
  {
    assert nodes[..i + 1][..i] == nodes[..i];
    var last := if IsEmpty(nodes[i].bounds) then [] else Painted(nodes[i], at + [i]);
    assert Leaves(AllPainted(nodes[..i], at) + last) == Leaves(AllPainted(nodes[..i], at)) + Leaves(last);
  }
}
