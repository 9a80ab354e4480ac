/** The queue of objects to be released on one task runner, drained by delayed tasks. */
module UnrefQueues {
  datatype Object = Object(id: nat)

  /** `posted` counts the drain tasks the runner still holds; `draining` has, for every drain under way,
      the objects it has yet to release. `unreffed` and `early` record all calls to `Unref` and all
      drains that were called directly. */
  datatype Queue = Queue(objects: seq<Object>, drainPending: bool, posted: nat, draining: seq<seq<Object>>,
                         released: seq<Object>, unreffed: seq<Object>, early: nat)

  const NEW := Queue([], false, 0, [], [], [], 0)

  datatype Step =
    | Unref(o: Object)
    | RunTask
    | DrainEarly
    | Release(drain: nat)

  predicate Enabled(q: Queue, step: Step) {
    match step
    case Unref(_) => true
    case RunTask => q.posted > 0
    case DrainEarly => true
    case Release(d) => d < |q.draining| && q.draining[d] != []
  }

  /** The critical section of a drain. */
  function Take(q: Queue): Queue {
    q.(draining := q.draining + [q.objects], objects := [], drainPending := false)
  }

  function Apply(q: Queue, step: Step): Queue
    requires Enabled(q, step)
  {
    match step
    case Unref(o) =>
      var r := q.(objects := q.objects + [o], unreffed := q.unreffed + [o]);
      if q.drainPending then r else r.(drainPending := true, posted := q.posted + 1)
    case RunTask => Take(q.(posted := q.posted - 1))
    case DrainEarly => Take(q.(early := q.early + 1))
    case Release(d) =>
      var left := q.draining[d];
      q.(released := q.released + [left[0]], draining := q.draining[d := left[1..]])
  }

  predicate IsRun(q: Queue, steps: seq<Step>, r: Queue)
    decreases steps
  {
    if steps == [] then q == r
    else Enabled(q, steps[0]) && IsRun(Apply(q, steps[0]), steps[1..], r)
  }

  function All(draining: seq<seq<Object>>): multiset<Object> {
    if draining == [] then multiset{}
    else All(draining[..|draining| - 1]) + multiset(draining[|draining| - 1])
  }

  /** Objects waiting have a drain task on its way; there are no more such tasks than are accounted for. */
  predicate Served(q: Queue) {
    && (q.objects != [] ==> q.drainPending)
    && (q.drainPending ==> q.posted > 0)
    && q.posted <= q.early + if q.drainPending then 1 else 0
  }

  /** Every object handed in is in one place: waiting, being drained, or released. */
  predicate Conserved(q: Queue) {
    multiset(q.released) + All(q.draining) + multiset(q.objects) == multiset(q.unreffed)
  }

  predicate Inv(q: Queue) { Served(q) && Conserved(q) }

  lemma {:induction false} AllUpdate(draining: seq<seq<Object>>, d: nat)
    requires d < |draining| && draining[d] != []
    ensures All(draining) == All(draining[d := draining[d][1..]]) + multiset{draining[d][0]}
    decreases draining
  {
    var n := |draining| - 1;
    var next := draining[d := draining[d][1..]];
    if d < n {
      AllUpdate(draining[..n], d);
      assert next[..n] == draining[..n][d := draining[d][1..]];
    } else {
      assert next[..n] == draining[..n];
      assert draining[n] == [draining[n][0]] + draining[n][1..];
    }
  }

  lemma AllPush(draining: seq<seq<Object>>, objects: seq<Object>)
    ensures All(draining + [objects]) == All(draining) + multiset(objects)
  {}

  lemma TakeKeepsConserved(q: Queue)
    requires Conserved(q)
    ensures Conserved(Take(q))
  {
    AllPush(q.draining, q.objects);
    assert multiset(q.released) + (All(q.draining) + multiset(q.objects)) == multiset(q.unreffed);
  }

  lemma ReleaseKeepsConserved(q: Queue, d: nat)
    requires Conserved(q) && Enabled(q, Release(d))
    ensures Conserved(Apply(q, Release(d)))
  {
    AllUpdate(q.draining, d);
    var x, rest := multiset{q.draining[d][0]}, All(q.draining[d := q.draining[d][1..]]);
    var released, objects := multiset(q.released), multiset(q.objects);
    assert released + (rest + x) + objects == released + x + rest + objects;
  }

  lemma ApplyKeepsInv(q: Queue, step: Step)
    requires Inv(q) && Enabled(q, step)
    ensures Inv(Apply(q, step))
  {
    match step
    case Unref(o) =>
      var all := multiset(q.released) + All(q.draining);
      assert all + (multiset(q.objects) + multiset{o}) == multiset(q.unreffed) + multiset{o};
    case Release(d) => ReleaseKeepsConserved(q, d);
    case RunTask => TakeKeepsConserved(q.(posted := q.posted - 1));
    case DrainEarly => TakeKeepsConserved(q.(early := q.early + 1));
  }

  /** Holds throughout every run. */
  lemma {:induction false} RunInv(q: Queue, steps: seq<Step>, r: Queue)
    requires Inv(q) && IsRun(q, steps, r)
    ensures Inv(r)
    decreases steps
  {
    if steps == [] {
    } else {
      ApplyKeepsInv(q, steps[0]);
      RunInv(Apply(q, steps[0]), steps[1..], r);
    }
  }

  predicate AtRest(q: Queue) { q.posted == 0 && forall d | 0 <= d < |q.draining| :: q.draining[d] == [] }

  lemma {:induction false} AllOfNone(draining: seq<seq<Object>>)
    requires forall d | 0 <= d < |draining| :: draining[d] == []
    ensures All(draining) == multiset{}
  {
    if draining == [] {
    } else {
      AllOfNone(draining[..|draining| - 1]);
    }
  }

  /** Once no drain task is left and none is under way, every object has been released exactly as often
      as it was handed in, and the queue may be destroyed. */
  lemma RestMeansReleased(steps: seq<Step>, r: Queue)
    requires IsRun(NEW, steps, r) && AtRest(r)
    ensures r.objects == [] && multiset(r.released) == multiset(r.unreffed)
  {
    RunInv(NEW, steps, r);
    AllOfNone(r.draining);
  }

  // ---- Order ----

  function Concat(draining: seq<seq<Object>>): seq<Object> {
    if draining == [] then [] else Concat(draining[..|draining| - 1]) + draining[|draining| - 1]
  }

  predicate Ordered(q: Queue) { q.released + Concat(q.draining) + q.objects == q.unreffed }

  /** Drains do not overlap: the oldest one under way is the one that goes on. */
  predicate OldestFirst(q: Queue, step: Step) {
    step.Release? ==> forall d | 0 <= d < step.drain && d < |q.draining| :: q.draining[d] == []
  }

  predicate IsSerialRun(q: Queue, steps: seq<Step>, r: Queue)
    decreases steps
  {
    if steps == [] then q == r
    else Enabled(q, steps[0]) && OldestFirst(q, steps[0]) && IsSerialRun(Apply(q, steps[0]), steps[1..], r)
  }

  lemma {:induction false} ConcatFirst(draining: seq<seq<Object>>, d: nat)
    requires d < |draining| && draining[d] != [] && forall i | 0 <= i < d :: draining[i] == []
    ensures Concat(draining) == [draining[d][0]] + Concat(draining[d := draining[d][1..]])
    decreases draining
  {
    var n := |draining| - 1;
    var next := draining[d := draining[d][1..]];
    if d < n {
      ConcatFirst(draining[..n], d);
      assert next[..n] == draining[..n][d := draining[d][1..]];
    } else {
      assert next[..n] == draining[..n];
      ConcatNone(draining[..n]);
    }
  }

  lemma {:induction false} ConcatNone(draining: seq<seq<Object>>)
    requires forall d | 0 <= d < |draining| :: draining[d] == []
    ensures Concat(draining) == []
  {
    if draining == [] {
    } else {
      ConcatNone(draining[..|draining| - 1]);
    }
  }

  lemma Shift(a: seq<Object>, x: Object, b: seq<Object>, c: seq<Object>)
    ensures a + ([x] + b) + c == a + [x] + b + c
  {}

  lemma ApplyKeepsOrder(q: Queue, step: Step)
    requires Ordered(q) && Enabled(q, step) && OldestFirst(q, step)
    ensures Ordered(Apply(q, step))
  {
    match step
    case Release(d) =>
      ConcatFirst(q.draining, d);
      Shift(q.released, q.draining[d][0], Concat(q.draining[d := q.draining[d][1..]]), q.objects);
    case Unref(o) =>
      assert q.released + Concat(q.draining) + (q.objects + [o]) == q.released + Concat(q.draining) + q.objects + [o];
    case _ =>
      assert (q.draining + [q.objects])[..|q.draining|] == q.draining;
      assert q.released + (Concat(q.draining) + q.objects) + [] == q.released + Concat(q.draining) + q.objects;
  }

  /** Where drains do not overlap, objects are released in the order they were handed in. */
  lemma {:induction false} SerialRunOrdered(q: Queue, steps: seq<Step>, r: Queue)
    requires Ordered(q) && IsSerialRun(q, steps, r)
    ensures r.released <= r.unreffed && Ordered(r)
    decreases steps
  {
    if steps == [] {
      assert q.released + Concat(q.draining) + q.objects == q.released + (Concat(q.draining) + q.objects);
    } else {
      ApplyKeepsOrder(q, steps[0]);
      SerialRunOrdered(Apply(q, steps[0]), steps[1..], r);
    }
  }

  predicate Distinct(s: seq<Object>) { forall i, j | 0 <= i < j < |s| :: s[i] != s[j] }

  lemma {:induction false} RunGrows(q: Queue, steps: seq<Step>, r: Queue)
    requires IsRun(q, steps, r)
    ensures q.released <= r.released && q.unreffed <= r.unreffed
    decreases steps
  {
    if steps == [] {
    } else {
      RunGrows(Apply(q, steps[0]), steps[1..], r);
    }
  }

  lemma {:induction false} ConcatHas(draining: seq<seq<Object>>, d: nat)
    requires d < |draining| && draining[d] != []
    ensures draining[d][0] in Concat(draining)
    decreases draining
  {
    var n := |draining| - 1;
    if d == n {
    } else {
      ConcatHas(draining[..n], d);
    }
  }

  /** The first drain that has something left. */
  lemma FirstBusy(draining: seq<seq<Object>>, below: nat) returns (i: nat)
    requires exists d | 0 <= d < below && d < |draining| :: draining[d] != []
    ensures i < below && i < |draining| && draining[i] != [] && forall d | 0 <= d < i :: draining[d] == []
  {
    i := 0;
    while draining[i] == []
      invariant i < below && i < |draining| && forall d | 0 <= d < i :: draining[d] == []
      invariant exists d | i <= d < below && d < |draining| :: draining[d] != []
      decreases |draining| - i
    {
      i := i + 1;
    }
  }

  /** What a drain releases out of turn is not what is next in order. */
  lemma OutOfTurn(q: Queue, d: nat)
    requires Ordered(q) && Distinct(q.unreffed) && Enabled(q, Release(d)) && !OldestFirst(q, Release(d))
    ensures |q.released| < |q.unreffed| && q.unreffed[|q.released|] != q.draining[d][0]
  {
    var i := FirstBusy(q.draining, d);
    var next := q.draining[i := q.draining[i][1..]];
    ConcatFirst(q.draining, i);
    ConcatHas(next, d);
    var k :| 0 <= k < |Concat(next)| && Concat(next)[k] == q.draining[d][0];
    Shift(q.released, q.draining[i][0], Concat(next), q.objects);
    var s := q.released + [q.draining[i][0]] + Concat(next) + q.objects;
    assert s[|q.released|] == q.draining[i][0] && s[|q.released| + 1 + k] == q.draining[d][0];
  }

  lemma InTurn(q: Queue, step: Step, r: Queue)
    requires Ordered(q) && Enabled(q, step) && Distinct(r.unreffed) && r.released <= r.unreffed
    requires q.unreffed <= r.unreffed && Apply(q, step).released <= r.released
    ensures OldestFirst(q, step)
  {
    if step.Release? {
      assert r.unreffed[|q.released|] == q.draining[step.drain][0];
      if !OldestFirst(q, step) { OutOfTurn(q, step.drain); }
    }
  }

  lemma {:induction false} OrderedIsSerial(q: Queue, steps: seq<Step>, r: Queue)
    requires Ordered(q) && IsRun(q, steps, r) && Distinct(r.unreffed) && r.released <= r.unreffed
    ensures IsSerialRun(q, steps, r)
    decreases steps
  {
    if steps == [] {
    } else {
      RunGrows(q, steps, r);
      RunGrows(Apply(q, steps[0]), steps[1..], r);
      InTurn(q, steps[0], r);
      ApplyKeepsOrder(q, steps[0]);
      OrderedIsSerial(Apply(q, steps[0]), steps[1..], r);
    }
  }

  /** Distinct objects are released in the order they were handed in exactly when every release is the
      oldest drain's. */
  lemma ReleasedInOrderIff(steps: seq<Step>, r: Queue)
    requires IsRun(NEW, steps, r) && Distinct(r.unreffed)
    ensures r.released <= r.unreffed <==> IsSerialRun(NEW, steps, r)
  {
    if r.released <= r.unreffed { OrderedIsSerial(NEW, steps, r); }
    if IsSerialRun(NEW, steps, r) { SerialRunOrdered(NEW, steps, r); }
  }

  // ---- A drain that overtakes another ----

  function OneTaken(a: Object): Queue { Queue([], false, 0, [[a]], [], [a], 0) }

  function BothTaken(a: Object, b: Object): Queue { Queue([], false, 1, [[a], [b]], [], [a, b], 1) }

  function Overtaken(a: Object, b: Object): Queue { Queue([], false, 1, [[a], []], [b], [a, b], 1) }

  lemma TakeOne(a: Object)
    ensures IsRun(NEW, [Unref(a), RunTask], OneTaken(a))
  {
    var q := Apply(NEW, Unref(a));
    assert q == Queue([a], true, 1, [], [], [a], 0);
    assert Apply(q, RunTask) == OneTaken(a);
    RunPush(NEW, [], NEW, Unref(a));
    RunPush(NEW, [Unref(a)], q, RunTask);
  }

  lemma TakeSecond(a: Object, b: Object)
    ensures IsRun(OneTaken(a), [Unref(b), DrainEarly], BothTaken(a, b))
  {
    var q := Apply(OneTaken(a), Unref(b));
    assert q == Queue([b], true, 1, [[a]], [], [a, b], 0);
    assert Apply(q, DrainEarly) == BothTaken(a, b);
    RunPush(OneTaken(a), [], OneTaken(a), Unref(b));
    RunPush(OneTaken(a), [Unref(b)], q, DrainEarly);
  }

  lemma ReleaseSecond(a: Object, b: Object)
    ensures Enabled(BothTaken(a, b), Release(1)) && Apply(BothTaken(a, b), Release(1)) == Overtaken(a, b)
  {
    assert [b][1..] == [] && [[a], [b]][1 := []] == [[a], []];
  }

  lemma {:induction false} RunConcat(q: Queue, s: seq<Step>, m: Queue, t: seq<Step>, r: Queue)
    requires IsRun(q, s, m) && IsRun(m, t, r)
    ensures IsRun(q, s + t, r)
    decreases s
  {
    if s == [] {
      assert s + t == t;
    } else {
      RunConcat(Apply(q, s[0]), s[1..], m, t, r);
      assert (s + t)[1..] == s[1..] + t;
    }
  }

  /** A direct drain may overtake the task runner's. */
  lemma OverlapLosesOrder(a: Object, b: Object) returns (steps: seq<Step>)
    requires a != b
    ensures IsRun(NEW, steps, Overtaken(a, b))
    ensures !(Overtaken(a, b).released <= Overtaken(a, b).unreffed) && Distinct(Overtaken(a, b).unreffed)
  {
    TakeOne(a);
    TakeSecond(a, b);
    RunConcat(NEW, [Unref(a), RunTask], OneTaken(a), [Unref(b), DrainEarly], BothTaken(a, b));
    ReleaseSecond(a, b);
    steps := [Unref(a), RunTask] + [Unref(b), DrainEarly];
    RunPush(NEW, steps, BothTaken(a, b), Release(1));
    steps := steps + [Release(1)];
    assert Overtaken(a, b).released[0] != Overtaken(a, b).unreffed[0];
  }

  // ---- The class ----

  class SkiaUnrefQueue {
    var objects: seq<Object>
    var drainPending: bool
    const hasContext: bool
    /** The task runner's outstanding drain tasks, the objects released, and the cleanups asked for. */
    var posted: nat
    var released: seq<Object>
    var cleanups: nat
    ghost var draining: seq<seq<Object>>
    ghost var unreffed: seq<Object>
    ghost var early: nat

    ghost function View(): Queue
      reads this
    {
      Queue(objects, drainPending, posted, draining, released, unreffed, early)
    }

    constructor (context: bool)
      ensures View() == NEW && cleanups == 0 && hasContext == context
    {
      objects, drainPending, hasContext := [], false, context;
      posted, released, cleanups := 0, [], 0;
      draining, unreffed, early := [], [], 0;
    }

    method Unref(o: Object)
      modifies this
      ensures View() == Apply(old(View()), Step.Unref(o)) && cleanups == old(cleanups)
    {
      objects := objects + [o];
      unreffed := unreffed + [o];
      if !drainPending {
        drainPending := true;
        posted := posted + 1;
      }
    }

    /** A drain, run by a posted task or called directly, with nothing happening meanwhile. */
    method Drain(asTask: bool) returns (ghost steps: seq<Step>)
      requires asTask ==> posted > 0
      modifies this
      ensures steps != [] && steps[0] == (if asTask then RunTask else DrainEarly)
      ensures IsRun(old(View()), steps, View())
      ensures released == old(released) + old(objects) && objects == [] && !drainPending
      ensures cleanups == old(cleanups) + if hasContext && old(objects) != [] then 1 else 0
    {
      ghost var first := if asTask then RunTask else DrainEarly;
      ghost var start := View();
      if asTask {
        posted := posted - 1;
      } else {
        early := early + 1;
      }
      var skiaObjects := objects;
      objects := [];
      drainPending := false;
      draining := draining + [skiaObjects];
      assert View() == Apply(start, first);
      steps := ReleaseAll(skiaObjects);
      assert ([first] + steps)[1..] == steps;
      steps := [first] + steps;
      if hasContext && |skiaObjects| > 0 {
        cleanups := cleanups + 1;
      }
    }

    /** The loop of a drain, after its critical section. */
    method ReleaseAll(skiaObjects: seq<Object>) returns (ghost steps: seq<Step>)
      requires draining != [] && draining[|draining| - 1] == skiaObjects
      modifies this`released, this`draining
      ensures IsRun(old(View()), steps, View())
      ensures released == old(released) + skiaObjects
    {
      steps := [];
      ghost var start, d := View(), |draining| - 1;
      for i := 0 to |skiaObjects|
        invariant released == old(released) + skiaObjects[..i]
        invariant |draining| == d + 1 && draining[d] == skiaObjects[i..]
        invariant IsRun(start, steps, View())
      {
        ghost var before := View();
        released := released + [skiaObjects[i]];
        draining := draining[d := skiaObjects[i + 1..]];
        assert View() == Apply(before, Release(d));
        RunPush(start, steps, before, Release(d));
        steps := steps + [Release(d)];
      }
    }
  }

  lemma {:induction false} RunPush(q: Queue, steps: seq<Step>, r: Queue, step: Step)
    requires IsRun(q, steps, r) && Enabled(r, step)
    ensures IsRun(q, steps + [step], Apply(r, step))
    decreases steps
  {
    if steps == [] {
      assert [step][1..] == [];
    } else {
      RunPush(Apply(q, steps[0]), steps[1..], r, step);
      assert (steps + [step])[1..] == steps[1..] + [step];
    }
  }
}
