/** Wake-up times: when the last `WakeUp` a loop received is in time for its tasks. */
module TaskQueueWakes {
  import opened DelayedTasks
  import opened TaskQueueSpec
  import opened TaskQueueRuns
  import opened Wrappers

  function LastWake(ws: seq<Wake>, q: TaskQueueId): Option<TimePoint> {
    if ws == [] then None
    else if ws[|ws| - 1].queue == q then Some(ws[|ws| - 1].time)
    else LastWake(ws[..|ws| - 1], q)
  }

  lemma LastWakeAppend(ws: seq<Wake>, w: Wake, q: TaskQueueId)
    ensures LastWake(ws + [w], q) == if w.queue == q then Some(w.time) else LastWake(ws, q)
  {}

  lemma LastWakeUp(r: Registry, ws: seq<Wake>, k: TaskQueueId, time: TimePoint, q: TaskQueueId)
    ensures LastWake(ws + WakeUp(r, k, time), q) ==
              if k == q && q in r.entries && r.entries[q].wakeable then Some(time) else LastWake(ws, q)
  {
    var up := WakeUp(r, k, time);
    if up == [] { assert ws + up == ws; } else { LastWakeAppend(ws, Wake(k, time), q); }
  }

  /** The loop of `q`, if it can be woken, is due to wake no later than its earliest task. */
  ghost predicate InTime(r: Registry, q: TaskQueueId)
    requires q in r.entries
  {
    r.entries[q].wakeable && Visible(r, q) != multiset{} ==>
      LastWake(r.wakes, q).Some? && LastWake(r.wakes, q).value <= EarliestTime(Visible(r, q))
  }

  ghost predicate AllInTime(r: Registry) {
    forall q | q in r.entries :: InTime(r, q)
  }

  lemma EarliestUnion(a: multiset<DelayedTask>, b: multiset<DelayedTask>)
    ensures EarliestTime(a + b) == if EarliestTime(a) <= EarliestTime(b) then EarliestTime(a) else EarliestTime(b)
  {}

  /** Before `RegisterTask`: no task of the merged partner is earlier than both the new
      task and every task already in the queue. Holds for every unmerged queue. */
  ghost predicate RegisterIsSafe(r: Registry, q: TaskQueueId, time: TimePoint)
    requires q in r.entries
  {
    var partner := EarliestTime(TasksOf(r, Partner(r, q)));
    time <= partner || EarliestTime(r.entries[q].tasks) <= partner
  }

  lemma UnmergedRegisterIsSafe(r: Registry, q: TaskQueueId, time: TimePoint)
    requires Paired(r) && q in r.entries && Partner(r, q) == UNMERGED
    ensures RegisterIsSafe(r, q, time)
  {
  }

  lemma RegisterVisible(r: Registry, q: TaskQueueId, c: Closure, time: TimePoint, r': Registry)
    requires Paired(r) && RegisterStep(r, q, c, time, r')
    ensures LoopOf(r, q) in r'.entries
    ensures Visible(r', LoopOf(r, q)) == r'.entries[q].tasks + TasksOf(r, Partner(r, q))
    ensures EarliestTime(r'.entries[q].tasks) ==
              if time <= EarliestTime(r.entries[q].tasks) then time else EarliestTime(r.entries[q].tasks)
  {
    assert PairedAt(r, q);
    if Partner(r, q) != UNMERGED { assert PairedAt(r, Partner(r, q)); }
    var t := DelayedTask(ToSize(r.order), c, time);
    EarliestUnion(r.entries[q].tasks, multiset{t});
    assert t in multiset{t};
  }

  /** The wake that `RegisterTask` issues is the earliest time its loop has to honour, and the
      loop is left in time, if and only if the registration is safe. */
  lemma RegisterInTimeIff(r: Registry, q: TaskQueueId, c: Closure, time: TimePoint, r': Registry)
    requires Paired(r) && RegisterStep(r, q, c, time, r')
    requires r.entries[q].subsumedBy != UNMERGED ==> r.entries[q].subsumedBy in r.entries
    requires r.entries[LoopOf(r, q)].wakeable
    ensures LoopOf(r, q) in r'.entries
    ensures InTime(r', LoopOf(r, q)) <==> RegisterIsSafe(r, q, time)
    ensures RegisterIsSafe(r, q, time) <==>
              LastWake(r'.wakes, LoopOf(r, q)) == Some(EarliestTime(Visible(r', LoopOf(r, q))))
  {
    var loop := LoopOf(r, q);
    RegisterVisible(r, q, c, time, r');
    var own := r'.entries[q].tasks;
    EarliestUnion(own, TasksOf(r, Partner(r, q)));
    LastWakeUp(r, r.wakes, loop, EarliestTime(own), loop);
    assert DelayedTask(ToSize(r.order), c, time) in own;
    assert r'.entries[loop].wakeable;
  }

  /** Runs that set wakeables before there is anything to run, and register tasks safely. */
  ghost predicate Careful(r: Registry, e: Event) {
    && (e.SetWakeable? && e.q in r.entries ==> Visible(r, e.q) == multiset{})
    && (e.Register? && e.q in r.entries ==> RegisterIsSafe(r, e.q, e.time))
  }

  /** A queue that a step neither wakes nor gives more tasks to stays in time. */
  lemma StaysInTime(r: Registry, r': Registry, q: TaskQueueId)
    requires q in r.entries && q in r'.entries && InTime(r, q)
    requires r'.entries[q].wakeable ==> r.entries[q].wakeable || Visible(r', q) == multiset{}
    requires Visible(r', q) <= Visible(r, q)
    requires LastWake(r'.wakes, q) == LastWake(r.wakes, q)
    ensures InTime(r', q)
  {}

  lemma RegisterKeepsInTime(r: Registry, q: TaskQueueId, c: Closure, time: TimePoint, r': Registry, k: TaskQueueId)
    requires Paired(r) && AllInTime(r) && RegisterStep(r, q, c, time, r') && RegisterIsSafe(r, q, time)
    requires k in r'.entries
    ensures InTime(r', k)
  {
    var loop := LoopOf(r, q);
    assert PairedAt(r, q) && PairedAt(r, k) && InTime(r, k);
    PairsAreDisjoint(r, k, q);
    if k == loop {
      if r'.entries[k].wakeable { RegisterInTimeIff(r, q, c, time, r'); }
    } else {
      LastWakeUp(r, r.wakes, loop, EarliestTime(r'.entries[q].tasks), k);
      assert Visible(r', k) == Visible(r, k);
      StaysInTime(r, r', k);
    }
  }

  lemma FlushHidesFromOthers(r: Registry, q: TaskQueueId, r': Registry, k: TaskQueueId)
    requires Paired(r) && q in r.entries && r.entries[q].subsumedBy == UNMERGED && k != q && k in r.entries
    requires var p := r.entries[q].ownerOf;
             r'.entries == PutTasks(PutTasks(r.entries, q, TasksOf(r', q)), p, TasksOf(r', p))
    ensures k in r'.entries && Visible(r', k) == Visible(r, k)
    ensures r'.entries[k].wakeable == r.entries[k].wakeable
  {
    assert PairedAt(r, q) && PairedAt(r, k);
    PairsAreDisjoint(r, q, k);
  }

  lemma FlushKeepsInTime(r: Registry, q: TaskQueueId, single: bool, now: TimePoint, fired: seq<DelayedTask>,
                         r': Registry, k: TaskQueueId)
    requires Paired(r) && AllInTime(r) && q in r.entries && FlushStep(r, q, single, now, fired, r') && k in r'.entries
    requires r.entries[q].subsumedBy == UNMERGED
    ensures InTime(r', k)
    ensures k == q && r.entries[q].wakeable ==> LastWake(r'.wakes, q) == Some(EarliestTime(Visible(r', q)))
  {
    assert InTime(r, k);
    LastWakeUp(r, r.wakes, q, EarliestTime(Visible(r', q)), k);
    if k != q {
      FlushHidesFromOthers(r, q, r', k);
      StaysInTime(r, r', k);
    }
  }

  lemma LinkHidesFromOthers(r: Registry, owner: TaskQueueId, sub: TaskQueueId, r': Registry, k: TaskQueueId)
    requires Paired(r) && owner in r.entries && sub in r.entries && k in r.entries && k != owner && k != sub
    requires || (Mergeable(r, owner, sub) && r'.entries == Link(r.entries, owner, sub))
             || (r.entries[owner].ownerOf == sub && r'.entries == Unlink(r.entries, owner, sub))
    ensures k in r'.entries && Visible(r', k) == Visible(r, k)
    ensures r'.entries[k].wakeable == r.entries[k].wakeable
  {}

  lemma WakeIfPendingInTime(r: Registry, ws: seq<Wake>, q: TaskQueueId, k: TaskQueueId)
    requires q in r.entries
    ensures k != q ==> LastWake(ws + WakeIfPending(r, q), k) == LastWake(ws, k)
    ensures Visible(r, q) != multiset{} && r.entries[q].wakeable ==>
              LastWake(ws + WakeIfPending(r, q), q) == Some(EarliestTime(Visible(r, q)))
  {
    if Visible(r, q) == multiset{} {
      assert ws + [] == ws;
    } else {
      LastWakeUp(r, ws, q, EarliestTime(Visible(r, q)), k);
      LastWakeUp(r, ws, q, EarliestTime(Visible(r, q)), q);
    }
  }

  lemma MergeKeepsInTime(r: Registry, owner: TaskQueueId, sub: TaskQueueId, ok: bool, r': Registry, k: TaskQueueId)
    requires Paired(r) && AllInTime(r) && MergeStep(r, owner, sub, ok, r') && k in r'.entries
    ensures InTime(r', k)
    ensures r' != r && k == owner && Visible(r', owner) != multiset{} && r'.entries[owner].wakeable ==>
              LastWake(r'.wakes, owner) == Some(EarliestTime(Visible(r', owner)))
  {
    assert InTime(r, k);
    if r' != r {
      var linked := r.(entries := Link(r.entries, owner, sub));
      WakeIfPendingInTime(linked, r.wakes, owner, k);
      if k == owner {
        assert Visible(r', k) == Visible(linked, k);
      } else if k != sub {
        LinkHidesFromOthers(r, owner, sub, r', k);
        StaysInTime(r, r', k);
      }
    }
  }

  /** The two queues of a pair just split have each been woken for their own earliest task. */
  lemma SplitInTime(r: Registry, owner: TaskQueueId, r': Registry, k: TaskQueueId)
    requires owner in r.entries && PairedAt(r, owner) && UnmergeStep(r, owner, true, r') && r' != r && k in r'.entries
    requires k == owner || k == r.entries[owner].ownerOf
    ensures InTime(r', k)
    ensures Visible(r', k) != multiset{} && r'.entries[k].wakeable ==>
              LastWake(r'.wakes, k) == Some(EarliestTime(Visible(r', k)))
  {
    var sub := r.entries[owner].ownerOf;
    var split := r.(entries := Unlink(r.entries, owner, sub));
    var ws := r.wakes + WakeIfPending(split, owner);
    WakeIfPendingInTime(split, r.wakes, owner, k);
    WakeIfPendingInTime(split, ws, sub, k);
    assert Visible(r', k) == Visible(split, k);
  }

  lemma SplitOthersInTime(r: Registry, owner: TaskQueueId, r': Registry, k: TaskQueueId)
    requires Paired(r) && AllInTime(r) && UnmergeStep(r, owner, true, r') && r' != r && k in r'.entries
    requires k != owner && k != r.entries[owner].ownerOf
    ensures InTime(r', k)
  {
    var sub := r.entries[owner].ownerOf;
    var split := r.(entries := Unlink(r.entries, owner, sub));
    assert InTime(r, k) && PairedAt(r, owner);
    WakeIfPendingInTime(split, r.wakes, owner, k);
    WakeIfPendingInTime(split, r.wakes + WakeIfPending(split, owner), sub, k);
    LinkHidesFromOthers(r, owner, sub, r', k);
    StaysInTime(r, r', k);
  }

  lemma UnmergeKeepsInTime(r: Registry, owner: TaskQueueId, ok: bool, r': Registry, k: TaskQueueId)
    requires Paired(r) && AllInTime(r) && UnmergeStep(r, owner, ok, r') && k in r'.entries
    ensures InTime(r', k)
    ensures r' != r && k in Group(r, owner) && Visible(r', k) != multiset{} && r'.entries[k].wakeable ==>
              LastWake(r'.wakes, k) == Some(EarliestTime(Visible(r', k)))
  {
    assert InTime(r, k) && PairedAt(r, owner);
    if r' != r {
      if k == owner || k == r.entries[owner].ownerOf {
        SplitInTime(r, owner, r', k);
      } else {
        SplitOthersInTime(r, owner, r', k);
      }
    }
  }

  lemma DisposalHides(r: Registry, e: Event, r': Registry, k: TaskQueueId)
    requires Paired(r) && k in r'.entries
    requires (e.Dispose? && DisposeStep(r, e.q, r')) || (e.DisposeTasks? && DisposeTasksStep(r, e.q, r'))
    ensures k in r.entries && Visible(r', k) <= Visible(r, k)
    ensures r'.entries[k].wakeable == r.entries[k].wakeable
  {
    assert PairedAt(r, k) && PairedAt(r, e.q);
    PairsAreDisjoint(r, k, e.q);
    var p := r.entries[k].ownerOf;
    assert TasksOf(r', p) <= TasksOf(r, p);
  }

  lemma OtherKeepsInTime(r: Registry, e: Event, r': Registry, k: TaskQueueId)
    requires Paired(r) && AllInTime(r) && Next(r, e, r') && Careful(r, e) && k in r'.entries
    requires e.Create? || e.Dispose? || e.DisposeTasks? || e.SetWakeable?
    ensures InTime(r', k)
  {
    if e.Dispose? || e.DisposeTasks? {
      DisposalHides(r, e, r', k);
      assert InTime(r, k);
      StaysInTime(r, r', k);
    } else if k in r.entries {
      assert InTime(r, k);
      if e.Create? { CreateHides(r, e.id, r', k); } else { assert Visible(r', k) == Visible(r, k); }
      StaysInTime(r, r', k);
    }
  }

  lemma CreateHides(r: Registry, id: TaskQueueId, r': Registry, k: TaskQueueId)
    requires Paired(r) && CreateStep(r, id, r') && k in r.entries
    ensures k in r'.entries && r'.entries[k] == r.entries[k] && Visible(r', k) == Visible(r, k)
  {}

  lemma NextKeepsInTime(r: Registry, e: Event, r': Registry)
    requires Paired(r) && AllInTime(r) && Next(r, e, r') && Careful(r, e)
    ensures AllInTime(r')
  {
    forall k | k in r'.entries ensures InTime(r', k) {
      match e
      case Register(q, c, time) => RegisterKeepsInTime(r, q, c, time, r', k);
      case Flush(q, single, now, fired) =>
        if Visible(r, q) != multiset{} { FlushKeepsInTime(r, q, single, now, fired, r', k); }
      case Merge(owner, sub, ok) => MergeKeepsInTime(r, owner, sub, ok, r', k);
      case Unmerge(owner, ok) => UnmergeKeepsInTime(r, owner, ok, r', k);
      case _ => OtherKeepsInTime(r, e, r', k);
    }
  }

  /** In every careful run no loop's last wake is later than its earliest visible task. */
  lemma {:induction false} RunInTime(hs: seq<History>, es: seq<Event>, n: nat)
    requires IsRun(hs, es) && n < |hs|
    requires forall i | 0 <= i < n :: Careful(hs[i].reg, es[i])
    ensures AllInTime(hs[n].reg)
  {
    if n == 0 {
    } else {
      assert Step(hs[n - 1], es[n - 1], hs[n]);
      RunInTime(hs, es, n - 1);
      RunInv(hs, es, n - 1);
      NextKeepsInTime(hs[n - 1].reg, es[n - 1], hs[n].reg);
    }
  }

  // ---- A merged run that sleeps through a task ----

  lemma EarliestOne(t: DelayedTask)
    ensures EarliestTime(multiset{t}) == t.targetTime
  {}

  const B := TaskQueueId(1)
  const T10 := DelayedTask(0, 0, 10)
  const T20 := DelayedTask(1, 1, 20)

  function TwoLoops(tasks0: multiset<DelayedTask>, tasks1: multiset<DelayedTask>, merged: bool)
    : map<TaskQueueId, Entry>
  {
    map[A := Entry(true, tasks0, if merged then B else UNMERGED, UNMERGED),
        B := Entry(true, tasks1, UNMERGED, if merged then A else UNMERGED)]
  }

  const IDLE := Registry(TwoLoops(multiset{}, multiset{}, false), 2, 0, [])
  const POSTED := Registry(TwoLoops(multiset{}, multiset{T10}, false), 2, 1, [Wake(B, 10)])
  const MERGED := Registry(TwoLoops(multiset{}, multiset{T10}, true), 2, 1, [Wake(B, 10), Wake(A, 10)])
  const LATE := Registry(TwoLoops(multiset{T20}, multiset{T10}, true), 2, 2, [Wake(B, 10), Wake(A, 10), Wake(A, 20)])

  ghost predicate CarefulRun(hs: seq<History>, es: seq<Event>) {
    IsRun(hs, es) && forall i | 0 <= i < |es| && !es[i].Register? :: Careful(hs[i].reg, es[i])
  }

  lemma ExtendCareful(hs: seq<History>, es: seq<Event>, e: Event, r: Registry, log: seq<Posted>)
    requires CarefulRun(hs, es) && hs[|es|].fired == [] && hs[|es|].disposed == multiset{}
    requires Next(hs[|es|].reg, e, r) && !e.Flush? && !e.Dispose? && !e.DisposeTasks?
    requires e.Register? || Careful(hs[|es|].reg, e)
    requires log == hs[|es|].log + Logged(hs[|es|].reg, e)
    ensures CarefulRun(hs + [History(r, log, [], multiset{})], es + [e])
  {
    ExtendRun(hs, es, e, History(r, log, [], multiset{}));
  }

  lemma ReachIdle() returns (hs: seq<History>, es: seq<Event>)
    ensures CarefulRun(hs, es) && hs[|es|] == History(IDLE, [], [], multiset{})
  {
    hs, es := [START], [];
    var rs := [Registry(map[A := NEW_ENTRY], 1, 0, []),
               Registry(map[A := NEW_ENTRY, B := NEW_ENTRY], 2, 0, []),
               Registry(map[A := NEW_ENTRY.(wakeable := true), B := NEW_ENTRY], 2, 0, []),
               IDLE];
    var todo := [Create(A), Create(B), SetWakeable(A), SetWakeable(B)];
    assert Next(EMPTY, todo[0], rs[0]) && Next(rs[0], todo[1], rs[1]);
    assert Next(rs[1], todo[2], rs[2]) && Next(rs[2], todo[3], rs[3]);
    for i := 0 to 4
      invariant CarefulRun(hs, es) && |es| == i
      invariant hs[|es|] == History(if i == 0 then EMPTY else rs[i - 1], [], [], multiset{})
    {
      assert Careful(hs[|es|].reg, todo[i]);
      ExtendCareful(hs, es, todo[i], rs[i], []);
      hs, es := hs + [History(rs[i], [], [], multiset{})], es + [todo[i]];
    }
  }

  lemma PostStep()
    ensures RegisterStep(IDLE, B, 0, 10, POSTED)
  {
    EarliestOne(T10);
    assert multiset{} + multiset{T10} == multiset{T10};
  }

  lemma JoinStep()
    ensures MergeStep(POSTED, A, B, true, MERGED)
  {}

  lemma LateStep()
    ensures RegisterStep(MERGED, A, 1, 20, LATE)
  {
    EarliestOne(T20);
    assert multiset{} + multiset{T20} == multiset{T20};
  }

  lemma LateIsLate()
    ensures LastWake(LATE.wakes, A) == Some(20)
    ensures Visible(LATE, A) == multiset{T20} + multiset{T10}
    ensures EarliestTime(Visible(LATE, A)) == 10
  {}

  /** Two loops with wakeables, a task for time 10 on the second, a merge, then a task for
      time 20 on the owner: the owner's loop is told to wake at 20 with a task due at 10. */
  lemma MergedRegisterSleepsLate() returns (hs: seq<History>, es: seq<Event>)
    ensures CarefulRun(hs, es) && hs[|es|].reg == LATE
    ensures LastWake(LATE.wakes, A) == Some(20) && EarliestTime(Visible(LATE, A)) == 10
    ensures !InTime(LATE, A)
  {
    hs, es := ReachIdle();
    PostStep();
    var p := [Posted(B, T10)];
    ExtendCareful(hs, es, Register(B, 0, 10), POSTED, p);
    hs, es := hs + [History(POSTED, p, [], multiset{})], es + [Register(B, 0, 10)];
    JoinStep();
    ExtendCareful(hs, es, Merge(A, B, true), MERGED, p);
    hs, es := hs + [History(MERGED, p, [], multiset{})], es + [Merge(A, B, true)];
    LateStep();
    ExtendCareful(hs, es, Register(A, 1, 20), LATE, p + [Posted(A, T20)]);
    hs, es := hs + [History(LATE, p + [Posted(A, T20)], [], multiset{})], es + [Register(A, 1, 20)];
    LateIsLate();
  }
}
