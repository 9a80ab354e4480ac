/** Whole-run properties of the task queues: conservation of tasks and registration order. */
module TaskQueueRuns {
  import opened DelayedTasks
  import opened TaskQueueSpec

  datatype Posted = Posted(queue: TaskQueueId, task: DelayedTask)

  /** A registry with its past: every registration in order, every task handed out in
      order, and every task dropped by `Dispose` or `DisposeTasks`. */
  datatype History = History(reg: Registry, log: seq<Posted>, fired: seq<DelayedTask>, disposed: multiset<DelayedTask>)

  const START := History(EMPTY, [], [], multiset{})

  /** Tasks an event adds to, takes out of, and drops from the queues. */
  ghost function Registered(r: Registry, e: Event): multiset<DelayedTask> {
    if e.Register? && -0x8000_0000 <= r.order < 0x8000_0000
    then multiset{DelayedTask(ToSize(r.order), e.task, e.time)} else multiset{}
  }

  ghost function Dequeued(e: Event): seq<DelayedTask> {
    if e.Flush? then e.fired else []
  }

  ghost function Dropped(r: Registry, e: Event): multiset<DelayedTask> {
    if (e.Dispose? || e.DisposeTasks?) && e.q in r.entries then Visible(r, e.q) else multiset{}
  }

  ghost function Logged(r: Registry, e: Event): seq<Posted> {
    if e.Register? && -0x8000_0000 <= r.order < 0x8000_0000
    then [Posted(e.q, DelayedTask(ToSize(r.order), e.task, e.time))] else []
  }

  ghost predicate Step(h: History, e: Event, h': History) {
    && Next(h.reg, e, h'.reg)
    && h' == History(h'.reg, h.log + Logged(h.reg, e), h.fired + Dequeued(e), h.disposed + Dropped(h.reg, e))
  }

  ghost predicate IsRun(hs: seq<History>, es: seq<Event>) {
    && |hs| == |es| + 1 && hs[0] == START
    && forall i | 0 <= i < |es| :: Step(hs[i], es[i], hs[i + 1])
  }

  lemma ExtendRun(hs: seq<History>, es: seq<Event>, e: Event, h: History)
    requires IsRun(hs, es) && Step(hs[|es|], e, h)
    ensures IsRun(hs + [h], es + [e])
  {
    var hs', es' := hs + [h], es + [e];
    forall i | 0 <= i < |es'| ensures Step(hs'[i], es'[i], hs'[i + 1]) {
      if i < |es| {
        assert hs'[i] == hs[i] && es'[i] == es[i] && hs'[i + 1] == hs[i + 1];
      } else {
        assert hs'[i] == hs[i] && es'[i] == e && hs'[i + 1] == h;
      }
    }
  }

  /** The first queue created. */
  const A := TaskQueueId(0)

  // ---- Conservation ----

  ghost function LoggedTasks(log: seq<Posted>): multiset<DelayedTask> {
    if log == [] then multiset{} else LoggedTasks(log[..|log| - 1]) + multiset{log[|log| - 1].task}
  }

  ghost predicate Conserved(h: History) {
    LoggedTasks(h.log) == AllTasks(h.reg.entries) + multiset(h.fired) + h.disposed
  }

  lemma PutTwoTotal(r: Registry, q: TaskQueueId, t: multiset<DelayedTask>, p: TaskQueueId, u: multiset<DelayedTask>)
    requires q in r.entries && p != q && (p in r.entries || u == multiset{})
    ensures AllTasks(PutTasks(PutTasks(r.entries, q, t), p, u)) + TasksOf(r, q) + TasksOf(r, p)
            == AllTasks(r.entries) + t + u
  {
    var m := r.entries;
    var m1 := PutTasks(m, q, t);
    AllTasksPut(m, q, m1[q]);
    assert AllTasks(m1) + TasksOf(r, q) == AllTasks(m) + t;
    if p in m {
      var m2 := PutTasks(m1, p, u);
      AllTasksPut(m1, p, m2[p]);
      assert AllTasks(m2) + TasksOf(r, p) == AllTasks(m1) + u;
      assert AllTasks(m2) + TasksOf(r, q) + TasksOf(r, p) == (AllTasks(m2) + TasksOf(r, p)) + TasksOf(r, q);
      assert AllTasks(m1) + u + TasksOf(r, q) == (AllTasks(m1) + TasksOf(r, q)) + u;
    }
  }

  lemma FlushConserves(r: Registry, q: TaskQueueId, single: bool, now: TimePoint, fired: seq<DelayedTask>, r': Registry)
    requires Paired(r) && q in r.entries && FlushStep(r, q, single, now, fired, r')
    ensures AllTasks(r'.entries) + multiset(fired) == AllTasks(r.entries)
  {
    var p := r.entries[q].ownerOf;
    assert PairedAt(r, q);
    var own, sub, own', sub' := TasksOf(r, q), TasksOf(r, p), TasksOf(r', q), TasksOf(r', p);
    assert p !in r.entries ==> sub' == multiset{};
    PutTwoTotal(r, q, own', p, sub');
    MultisetCancel(AllTasks(r'.entries), multiset(fired), own, sub, own', sub', AllTasks(r.entries));
  }

  lemma MultisetCancel<T>(a': multiset<T>, f: multiset<T>, own: multiset<T>, sub: multiset<T>,
                          own': multiset<T>, sub': multiset<T>, a: multiset<T>)
    requires a' + own + sub == a + own' + sub' && own + sub == f + own' + sub'
    ensures a' + f == a
  {
    forall t ensures (a' + f)[t] == a[t] {
      assert (a' + own + sub)[t] == (a + own' + sub')[t];
      assert (own + sub)[t] == (f + own' + sub')[t];
    }
  }

  lemma DropConserves(r: Registry, q: TaskQueueId)
    requires Paired(r) && q in r.entries && r.entries[q].subsumedBy == UNMERGED
    ensures AllTasks(r.entries - Group(r, q)) + Visible(r, q) == AllTasks(r.entries)
    ensures AllTasks(PutTasks(PutTasks(r.entries, q, multiset{}), r.entries[q].ownerOf, multiset{})) + Visible(r, q)
            == AllTasks(r.entries)
  {
    var p := r.entries[q].ownerOf;
    assert PairedAt(r, q);
    if p == UNMERGED { AllTasksRemove(r.entries, q); } else { AllTasksRemoveTwo(r.entries, q, p); }
    PutTwoTotal(r, q, multiset{}, p, multiset{});
    var all := AllTasks(PutTasks(PutTasks(r.entries, q, multiset{}), p, multiset{}));
    assert all + Visible(r, q) == all + TasksOf(r, q) + TasksOf(r, p);
  }

  lemma RegisterConserves(r: Registry, q: TaskQueueId, c: Closure, time: TimePoint, r': Registry)
    requires Next(r, Register(q, c, time), r')
    ensures AllTasks(r'.entries) == AllTasks(r.entries) + multiset{DelayedTask(ToSize(r.order), c, time)}
  {
    var t := multiset{DelayedTask(ToSize(r.order), c, time)};
    AllTasksPut(r.entries, q, r'.entries[q]);
    assert AllTasks(r.entries) + (r.entries[q].tasks + t) == (AllTasks(r.entries) + t) + r.entries[q].tasks;
    Cancel(AllTasks(r'.entries), AllTasks(r.entries) + t, r.entries[q].tasks);
  }

  lemma Cancel<T>(a: multiset<T>, b: multiset<T>, c: multiset<T>)
    requires a + c == b + c
    ensures a == b
  {
    forall t ensures a[t] == b[t] { assert (a + c)[t] == (b + c)[t]; }
  }

  lemma CreateConserves(r: Registry, id: TaskQueueId, r': Registry)
    requires Paired(r) && Next(r, Create(id), r')
    ensures AllTasks(r'.entries) == AllTasks(r.entries)
  {
    assert id !in r.entries;
    AllTasksAdd(r.entries, id, NEW_ENTRY);
  }

  ghost predicate SameTasks(m: map<TaskQueueId, Entry>, m': map<TaskQueueId, Entry>) {
    m'.Keys == m.Keys && forall k | k in m :: m'[k].tasks == m[k].tasks
  }

  lemma LinkSameTasks(m: map<TaskQueueId, Entry>, owner: TaskQueueId, sub: TaskQueueId)
    requires owner in m && sub in m
    ensures SameTasks(m, Link(m, owner, sub)) && SameTasks(m, Unlink(m, owner, sub))
  {
    var l, u := Link(m, owner, sub), Unlink(m, owner, sub);
    assert l.Keys == m.Keys && u.Keys == m.Keys;
  }

  /** Merging, unmerging and setting a wakeable move no task. */
  lemma LinksMoveNoTask(r: Registry, e: Event, r': Registry)
    requires Next(r, e, r') && (e.Merge? || e.Unmerge? || e.SetWakeable?)
    ensures SameTasks(r.entries, r'.entries)
    ensures AllTasks(r'.entries) == AllTasks(r.entries)
  {
    match e {
      case Merge(owner, sub, _) =>
        if r' != r { LinkSameTasks(r.entries, owner, sub); }
      case Unmerge(owner, _) =>
        if r' != r { LinkSameTasks(r.entries, owner, r.entries[owner].ownerOf); }
      case SetWakeable(q) =>
        assert r'.entries.Keys == r.entries.Keys;
    }
    RelinkConserves(r.entries, r'.entries);
  }

  lemma {:induction false} RelinkConserves(m: map<TaskQueueId, Entry>, m': map<TaskQueueId, Entry>)
    requires SameTasks(m, m')
    ensures AllTasks(m') == AllTasks(m)
    decreases |m|
  {
    if |m| != 0 {
      assert m.Keys != {};
      var k :| k in m.Keys;
      AllTasksRemove(m, k);
      AllTasksRemove(m', k);
      assert (m' - {k}).Keys == (m - {k}).Keys;
      RelinkConserves(m - {k}, m' - {k});
    } else {
      assert |m'.Keys| == |m.Keys|;
    }
  }

  lemma LoggedAppend(log: seq<Posted>, p: Posted)
    ensures LoggedTasks(log + [p]) == LoggedTasks(log) + multiset{p.task}
  {}

  /** Tasks before plus registered are tasks after plus dequeued plus dropped. */
  ghost predicate Balanced(r: Registry, e: Event, r': Registry) {
    AllTasks(r.entries) + Registered(r, e) == AllTasks(r'.entries) + multiset(Dequeued(e)) + Dropped(r, e)
  }

  lemma FlushBalanced(r: Registry, q: TaskQueueId, single: bool, now: TimePoint, fired: seq<DelayedTask>, r': Registry)
    requires Paired(r) && Next(r, Flush(q, single, now, fired), r')
    ensures Balanced(r, Flush(q, single, now, fired), r')
  {
    if Visible(r, q) != multiset{} { FlushConserves(r, q, single, now, fired, r'); }
  }

  lemma DisposeBalanced(r: Registry, q: TaskQueueId, e: Event, r': Registry)
    requires Paired(r) && Next(r, e, r') && (e == Dispose(q) || e == DisposeTasks(q))
    ensures Balanced(r, e, r')
  {
    DropConserves(r, q);
  }

  lemma CreateBalanced(r: Registry, id: TaskQueueId, r': Registry)
    requires Paired(r) && Next(r, Create(id), r')
    ensures Balanced(r, Create(id), r')
  {
    CreateConserves(r, id, r');
  }

  lemma RegisterBalanced(r: Registry, q: TaskQueueId, c: Closure, time: TimePoint, r': Registry)
    requires Next(r, Register(q, c, time), r')
    ensures Balanced(r, Register(q, c, time), r')
  {
    RegisterConserves(r, q, c, time, r');
  }

  lemma LinksBalanced(r: Registry, e: Event, r': Registry)
    requires Next(r, e, r') && (e.Merge? || e.Unmerge? || e.SetWakeable?)
    ensures Balanced(r, e, r')
  {
    LinksMoveNoTask(r, e, r');
  }

  /** No step creates or loses a task unaccounted for. */
  lemma NextConserves(r: Registry, e: Event, r': Registry)
    requires Paired(r) && Next(r, e, r')
    ensures Balanced(r, e, r')
  {
    match e
    case Create(id) => CreateBalanced(r, id, r');
    case Dispose(q) => DisposeBalanced(r, q, e, r');
    case DisposeTasks(q) => DisposeBalanced(r, q, e, r');
    case Register(q, c, time) => RegisterBalanced(r, q, c, time, r');
    case Flush(q, single, now, fired) => FlushBalanced(r, q, single, now, fired, r');
    case _ => LinksBalanced(r, e, r');
  }

  lemma StepConserves(h: History, e: Event, h': History)
    requires Paired(h.reg) && Conserved(h) && Step(h, e, h')
    ensures Conserved(h')
  {
    NextConserves(h.reg, e, h'.reg);
    assert LoggedTasks(h'.log) == LoggedTasks(h.log) + Registered(h.reg, e) by {
      if e.Register? { LoggedAppend(h.log, h'.log[|h.log|]); } else { assert h.log + [] == h.log; }
    }
    assert multiset(h.fired + Dequeued(e)) == multiset(h.fired) + multiset(Dequeued(e));
    Rebalance(AllTasks(h.reg.entries), Registered(h.reg, e), AllTasks(h'.reg.entries), multiset(Dequeued(e)),
              Dropped(h.reg, e), multiset(h.fired), h.disposed);
  }

  lemma Rebalance<T>(a: multiset<T>, reg: multiset<T>, a': multiset<T>, f: multiset<T>, d: multiset<T>,
                     fs: multiset<T>, ds: multiset<T>)
    requires a + reg == a' + f + d
    ensures (a + fs + ds) + reg == a' + (fs + f) + (ds + d)
  {
    assert (a + fs + ds) + reg == (a + reg) + fs + ds;
  }

  // ---- Registration order ----

  /** Every pending task sits in the queue it was registered on. */
  ghost predicate LocatedAt(h: History, q: TaskQueueId, t: DelayedTask) {
    exists i :: 0 <= i < |h.log| && h.log[i] == Posted(q, t)
  }

  ghost predicate Located(h: History) {
    forall q, t | q in h.reg.entries && t in h.reg.entries[q].tasks :: LocatedAt(h, q, t)
  }

  ghost predicate NumberedLog(log: seq<Posted>) {
    forall i | 0 <= i < |log| :: log[i].task.order == OrderOf(i)
  }

  ghost predicate Numbered(h: History) {
    h.reg.order == WrapInt(|h.log|) && NumberedLog(h.log)
  }

  ghost predicate Inv(h: History) {
    Paired(h.reg) && Conserved(h) && Located(h) && Numbered(h)
  }

  lemma FlushTasksFrom(r: Registry, q: TaskQueueId, single: bool, now: TimePoint, fired: seq<DelayedTask>,
                       r': Registry, k: TaskQueueId)
    requires q in r.entries && FlushStep(r, q, single, now, fired, r') && k in r'.entries
    ensures k in r.entries && r'.entries[k].tasks <= r.entries[k].tasks
  {
  }

  /** A step puts no task into a queue other than the one being registered. */
  lemma NextTasksFrom(r: Registry, e: Event, r': Registry, q: TaskQueueId, t: DelayedTask)
    requires Next(r, e, r') && q in r'.entries && t in r'.entries[q].tasks
    ensures || (q in r.entries && t in r.entries[q].tasks)
            || (e.Register? && e.q == q && t in Registered(r, e))
  {
    match e
    case Flush(k, single, now, fired) =>
      if Visible(r, k) != multiset{} { FlushTasksFrom(r, k, single, now, fired, r', q); }
    case Merge(_, _, _) => LinksMoveNoTask(r, e, r');
    case Unmerge(_, _) => LinksMoveNoTask(r, e, r');
    case _ =>
  }

  lemma StepKeepsLocated(h: History, e: Event, h': History)
    requires Located(h) && Step(h, e, h')
    ensures Located(h')
  {
    forall q, t | q in h'.reg.entries && t in h'.reg.entries[q].tasks ensures LocatedAt(h', q, t) {
      NextTasksFrom(h.reg, e, h'.reg, q, t);
      if q in h.reg.entries && t in h.reg.entries[q].tasks {
        assert LocatedAt(h, q, t);
        var i :| 0 <= i < |h.log| && h.log[i] == Posted(q, t);
        assert h'.log[i] == Posted(q, t);
      } else {
        assert h'.log[|h.log|] == Posted(q, t);
      }
    }
  }

  lemma StepKeepsNumbered(h: History, e: Event, h': History)
    requires Numbered(h) && Step(h, e, h')
    ensures Numbered(h')
  {
    OrderSteps(h.reg, e, h'.reg);
    WrapStep(|h.log|);
  }

  lemma OrderSteps(r: Registry, e: Event, r': Registry)
    requires Next(r, e, r')
    ensures r'.order == if e.Register? then NextOrder(r.order) else r.order
  {
  }

  lemma WrapStep(n: nat)
    ensures WrapInt(n + 1) == NextOrder(WrapInt(n))
  {
  }

  lemma StepKeepsInv(h: History, e: Event, h': History)
    requires Inv(h) && Step(h, e, h')
    ensures Inv(h')
  {
    NextKeepsPairing(h.reg, e, h'.reg);
    StepConserves(h, e, h');
    StepKeepsLocated(h, e, h');
    StepKeepsNumbered(h, e, h');
  }

  lemma StartInv()
    ensures Inv(START)
  {
  }

  /** Pairing, conservation and location hold in every state of every run. */
  lemma {:induction false} RunInv(hs: seq<History>, es: seq<Event>, n: nat)
    requires IsRun(hs, es) && n < |hs|
    ensures Inv(hs[n])
  {
    if n == 0 {
      StartInv();
    } else {
      RunInv(hs, es, n - 1);
      StepKeepsInv(hs[n - 1], es[n - 1], hs[n]);
    }
  }

  lemma {:induction false} LoggedContains(log: seq<Posted>, t: DelayedTask)
    ensures t in LoggedTasks(log) <==> exists i :: 0 <= i < |log| && log[i].task == t
  {
    if log == [] {
    } else {
      var init := log[..|log| - 1];
      LoggedContains(init, t);
      if t in LoggedTasks(init) {
        var i :| 0 <= i < |init| && init[i].task == t;
        assert log[i].task == t;
      }
      if i :| 0 <= i < |log| && log[i].task == t {
        if i < |log| - 1 { assert init[i].task == t; }
      }
    }
  }

  lemma SameTaskSameIndex(h: History, i: nat, j: nat)
    requires Numbered(h) && |h.log| <= TWO32 && i < |h.log| && j < |h.log| && h.log[i].task == h.log[j].task
    ensures i == j
  {}

  /** Task `i` is due before task `j`, or with it and in an earlier place of a round of 2^32. */
  predicate Sooner(log: seq<Posted>, i: nat, j: nat)
    requires i < |log| && j < |log|
  {
    var a, b := log[i].task.targetTime, log[j].task.targetTime;
    a < b || (a == b && i % TWO32 < j % TWO32)
  }

  lemma EarlyIsSooner(log: seq<Posted>, i: nat, j: nat)
    requires i < j < |log| <= TWO32 && log[i].task.targetTime <= log[j].task.targetTime
    ensures Sooner(log, i, j)
  {}

  /** When a loop is handed task `j`, every visible task that is sooner has been handed out before it,
      whichever of the merged queues it is on and however many tasks have been registered. */
  lemma FlushInOrder(h: History, e: Event, h': History, i: nat, j: nat, k: nat)
    requires Numbered(h) && e.Flush? && Step(h, e, h')
    requires i < |h.log| && j < |h.log| && Sooner(h.log, i, j)
    requires k < |e.fired| && e.fired[k] == h.log[j].task
    requires h.log[i].task in Visible(h.reg, e.q)
    ensures h.log[i].task in e.fired[..k]
  {
    var r := h.reg;
    OrderMonotoneIff(i, j);
    assert Greater(e.fired[k], h.log[i].task);
    assert FlushStep(r, e.q, e.single, e.now, e.fired, h'.reg);
    var p := r.entries[e.q].ownerOf;
    FlushBefore(TasksOf(r, e.q), TasksOf(r, p), e.single, e.now, e.fired, TasksOf(h'.reg, e.q), TasksOf(h'.reg, p),
                h.log[i].task, k);
  }

  /** Of two tasks with one target time, handed out by one call, the first is the one in the earlier
      place of a round: registration order is kept if and only if `i % 2^32 < j % 2^32`. */
  lemma FiredInOrderIff(h: History, e: Event, h': History, i: nat, j: nat, a: nat, b: nat)
    requires Numbered(h) && e.Flush? && Step(h, e, h')
    requires i < |h.log| && j < |h.log| && h.log[i].task.targetTime == h.log[j].task.targetTime
    requires i % TWO32 != j % TWO32
    requires a < |e.fired| && e.fired[a] == h.log[i].task && b < |e.fired| && e.fired[b] == h.log[j].task
    ensures a < b <==> i % TWO32 < j % TWO32
  {
    OrderMonotoneIff(i, j);
    assert FlushStep(h.reg, e.q, e.single, e.now, e.fired, h'.reg);
    SortedByOrder(e.fired, a, b);
  }

  lemma SortedByOrder(fired: seq<DelayedTask>, a: nat, b: nat)
    requires Sorted(fired) && a < |fired| && b < |fired|
    requires fired[a].targetTime == fired[b].targetTime && fired[a].order != fired[b].order
    ensures a < b <==> fired[a].order < fired[b].order
  {
    assert a < b ==> !Greater(fired[a], fired[b]);
    assert b < a ==> !Greater(fired[b], fired[a]);
  }

  ghost predicate Precedes(log: seq<Posted>, i: nat, j: nat) {
    && i < j < |log| && log[i].queue == log[j].queue
    && log[i].task.targetTime <= log[j].task.targetTime
  }

  ghost predicate FifoAt(log: seq<Posted>, fired: seq<DelayedTask>, disposed: multiset<DelayedTask>,
                         i: nat, j: nat, k: nat)
  {
    Precedes(log, i, j) && k < |fired| && fired[k] == log[j].task ==>
      log[i].task in fired[..k] || log[i].task in disposed
  }

  /** No task is handed out while an earlier registered task of the same queue, due no
      later, is still waiting. */
  ghost predicate Fifo(h: History) {
    forall i: nat, j: nat, k: nat :: FifoAt(h.log, h.fired, h.disposed, i, j, k)
  }

  lemma PendingAt(h: History, i: nat)
    requires Inv(h) && |h.log| <= TWO32 && i < |h.log|
    ensures || h.log[i].task in h.fired || h.log[i].task in h.disposed
            || (h.log[i].queue in h.reg.entries && h.log[i].task in h.reg.entries[h.log[i].queue].tasks)
  {
    var t := h.log[i].task;
    LoggedContains(h.log, t);
    AllTasksContains(h.reg.entries, t);
    if t !in h.fired && t !in h.disposed {
      assert t in AllTasks(h.reg.entries);
      var q :| q in h.reg.entries && t in h.reg.entries[q].tasks;
      assert LocatedAt(h, q, t);
      var m :| 0 <= m < |h.log| && h.log[m] == Posted(q, t);
      SameTaskSameIndex(h, i, m);
    }
  }

  /** A task handed out by a step was visible to that loop, in the queue of its registration. */
  lemma FiredFrom(h: History, e: Event, h': History, j: nat)
    requires Inv(h) && |h.log| <= TWO32 && e.Flush? && Step(h, e, h') && j < |h.log| && h.log[j].task in e.fired
    ensures h.log[j].queue in h.reg.entries && h.log[j].queue in Group(h.reg, e.q)
    ensures h.reg.entries[e.q].subsumedBy == UNMERGED
  {
    var b, p := h.log[j].task, h.reg.entries[e.q].ownerOf;
    var own, sub := TasksOf(h.reg, e.q), TasksOf(h.reg, p);
    assert b in multiset(e.fired) && b in own + sub;
    var x := if b in own then e.q else p;
    assert x in h.reg.entries && b in h.reg.entries[x].tasks;
    assert LocatedAt(h, x, b);
    var m :| 0 <= m < |h.log| && h.log[m] == Posted(x, b);
    SameTaskSameIndex(h, j, m);
    assert PairedAt(h.reg, e.q);
  }

  lemma FlushKeepsFifo(h: History, e: Event, h': History, i: nat, j: nat, k: nat)
    requires Inv(h) && |h.log| <= TWO32 && e.Flush? && Step(h, e, h')
    requires Precedes(h.log, i, j) && k < |e.fired| && e.fired[k] == h.log[j].task
    ensures h.log[i].task in h.fired || h.log[i].task in e.fired[..k] || h.log[i].task in h.disposed
  {
    var a := h.log[i].task;
    FiredFrom(h, e, h', j);
    PendingAt(h, i);
    if a !in h.fired && a !in h.disposed {
      GroupVisible(h.reg, e.q, h.log[i].queue, a);
      EarlyIsSooner(h.log, i, j);
      FlushInOrder(h, e, h', i, j, k);
    }
  }

  lemma GroupVisible(r: Registry, q: TaskQueueId, x: TaskQueueId, t: DelayedTask)
    requires q in r.entries && r.entries[q].subsumedBy == UNMERGED
    requires x in r.entries && x in Group(r, q) && t in r.entries[x].tasks
    ensures t in Visible(r, q)
  {
  }

  lemma FifoExtend(log: seq<Posted>, fired: seq<DelayedTask>, disposed: multiset<DelayedTask>,
                   more: seq<DelayedTask>, dropped: multiset<DelayedTask>, i: nat, j: nat, k: nat)
    requires FifoAt(log, fired, disposed, i, j, k)
    requires Precedes(log, i, j) && |fired| <= k < |fired| + |more| && more[k - |fired|] == log[j].task ==>
               log[i].task in fired || log[i].task in more[..k - |fired|] || log[i].task in disposed
    ensures FifoAt(log, fired + more, disposed + dropped, i, j, k)
  {
    if Precedes(log, i, j) && k < |fired| + |more| {
      if k < |fired| {
        assert (fired + more)[..k] == fired[..k];
      } else {
        assert (fired + more)[..k] == fired + more[..k - |fired|];
      }
    }
  }

  /** Task `i` left before the `k`-th of the tasks in `more`, if that is task `j`. */
  ghost predicate LeftBefore(h: History, more: seq<DelayedTask>, i: nat, j: nat, k: nat) {
    Precedes(h.log, i, j) && k < |more| && more[k] == h.log[j].task ==>
      h.log[i].task in h.fired || h.log[i].task in more[..k] || h.log[i].task in h.disposed
  }

  lemma StepLeavesInOrder(h: History, e: Event, h': History, i: nat, j: nat, k: nat)
    requires Inv(h) && Step(h, e, h') && |h.log| <= TWO32
    ensures LeftBefore(h, Dequeued(e), i, j, k)
  {
    if Precedes(h.log, i, j) && k < |Dequeued(e)| && Dequeued(e)[k] == h.log[j].task {
      FlushKeepsFifo(h, e, h', i, j, k);
    }
  }

  lemma FifoGrows(h: History, h': History, more: seq<DelayedTask>, dropped: multiset<DelayedTask>,
                  i: nat, j: nat, k: nat)
    requires FifoAt(h.log, h.fired, h.disposed, i, j, k)
    requires |h.fired| <= k ==> LeftBefore(h, more, i, j, k - |h.fired|)
    requires h'.fired == h.fired + more && h'.disposed == h.disposed + dropped && h.log <= h'.log && j < |h.log|
    ensures FifoAt(h'.log, h'.fired, h'.disposed, i, j, k)
  {
    FifoExtend(h.log, h.fired, h.disposed, more, dropped, i, j, k);
    assert Precedes(h'.log, i, j) ==> Precedes(h.log, i, j);
  }

  /** What a step does to the record of the past. */
  ghost predicate Grown(h: History, h': History, more: seq<DelayedTask>, dropped: multiset<DelayedTask>) {
    h'.fired == h.fired + more && h'.disposed == h.disposed + dropped && h.log <= h'.log
  }

  ghost predicate NewNotFired(h: History, h': History) {
    forall j: nat, k: nat | |h.log| <= j < |h'.log| && k < |h'.fired| :: h'.fired[k] != h'.log[j].task
  }

  lemma FifoKept(h: History, h': History, more: seq<DelayedTask>, dropped: multiset<DelayedTask>)
    requires Fifo(h) && Grown(h, h', more, dropped) && NewNotFired(h, h')
    requires forall i: nat, j: nat, k: nat :: LeftBefore(h, more, i, j, k)
    ensures Fifo(h')
  {
    forall i: nat, j: nat, k: nat ensures FifoAt(h'.log, h'.fired, h'.disposed, i, j, k) {
      if j < |h.log| {
        assert FifoAt(h.log, h.fired, h.disposed, i, j, k);
        assert |h.fired| <= k ==> LeftBefore(h, more, i, j, k - |h.fired|);
        FifoGrows(h, h', more, dropped, i, j, k);
      }
    }
  }

  lemma StepNewNotFired(h: History, e: Event, h': History)
    requires Inv(h) && Step(h, e, h') && |h'.log| <= TWO32
    ensures NewNotFired(h, h')
  {
    if e.Register? {
      forall k: nat | k < |h'.fired| ensures h'.fired[k] != h'.log[|h.log|].task {
        NewTaskNotFired(h, h', e, k);
      }
    }
  }

  lemma StepKeepsFifo(h: History, e: Event, h': History)
    requires Inv(h) && Fifo(h) && Step(h, e, h') && |h'.log| <= TWO32
    ensures Fifo(h')
  {
    forall i: nat, j: nat, k: nat ensures LeftBefore(h, Dequeued(e), i, j, k) {
      StepLeavesInOrder(h, e, h', i, j, k);
    }
    StepNewNotFired(h, e, h');
    FifoKept(h, h', Dequeued(e), Dropped(h.reg, e));
  }

  lemma NewTaskNotFired(h: History, h': History, e: Event, k: nat)
    requires Inv(h) && e.Register? && Step(h, e, h') && |h'.log| <= TWO32 && k < |h.fired|
    ensures h.fired[k] != h'.log[|h.log|].task
  {
    var t := h.fired[k];
    assert t in multiset(h.fired) && t in LoggedTasks(h.log);
    LoggedContains(h.log, t);
    var i :| 0 <= i < |h.log| && h.log[i].task == t;
    OrderMonotoneIff(i, |h.log|);
  }

  /** Over the first 2^32 registrations, across merges and unmerges, tasks of a queue with
      equal target times (or earlier ones registered first) leave in registration order. */
  lemma {:induction false} RunFifo(hs: seq<History>, es: seq<Event>, n: nat)
    requires IsRun(hs, es) && n < |hs| && |hs[n].log| <= TWO32
    ensures Fifo(hs[n])
  {
    if n == 0 {
    } else {
      assert Step(hs[n - 1], es[n - 1], hs[n]);
      RunFifo(hs, es, n - 1);
      RunInv(hs, es, n - 1);
      StepKeepsFifo(hs[n - 1], es[n - 1], hs[n]);
    }
  }
}
