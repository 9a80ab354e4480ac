/** How far the order of dequeuing is fixed: keys are distinct over the first 2^32 registrations, and no
    further. */
module TaskQueueOrder {
  import opened DelayedTasks
  import opened TaskQueueSpec
  import opened TaskQueueRuns

  // ---- Keys are distinct ----

  lemma {:induction false} LoggedOnce(log: seq<Posted>, t: DelayedTask)
    requires NumberedLog(log) && |log| <= TWO32
    ensures LoggedTasks(log)[t] <= 1
  {
    if log == [] {
    } else {
      var n := |log| - 1;
      var init := log[..n];
      LoggedOnce(init, t);
      LoggedContains(init, t);
      if log[n].task == t && t in LoggedTasks(init) {
        var i :| 0 <= i < n && init[i].task == t;
        SameOrder(i, n);
      }
    }
  }

  lemma LoggedKeys(log: seq<Posted>, t: DelayedTask, u: DelayedTask)
    requires NumberedLog(log) && |log| <= TWO32
    requires t in LoggedTasks(log) && u in LoggedTasks(log) && SameKey(t, u)
    ensures t == u
  {
    LoggedContains(log, t);
    LoggedContains(log, u);
    var i :| 0 <= i < |log| && log[i].task == t;
    var j :| 0 <= j < |log| && log[j].task == u;
    SameOrder(i, j);
  }

  lemma VisibleIsPart(r: Registry, q: TaskQueueId)
    requires Paired(r) && q in r.entries
    ensures Visible(r, q) <= AllTasks(r.entries)
  {
    assert PairedAt(r, q);
    var p := r.entries[q].ownerOf;
    if r.entries[q].subsumedBy != UNMERGED {
    } else if p == UNMERGED {
      AllTasksRemove(r.entries, q);
    } else {
      AllTasksRemoveTwo(r.entries, q, p);
    }
  }

  /** No two tasks a loop sees have the same key, and none is there twice. */
  lemma KeysAreDistinct(h: History, q: TaskQueueId)
    requires Inv(h) && |h.log| <= TWO32 && q in h.reg.entries
    ensures DistinctKeys(Visible(h.reg, q))
  {
    var seen, logged := Visible(h.reg, q), LoggedTasks(h.log);
    VisibleIsPart(h.reg, q);
    assert seen <= logged;
    forall t, u | t in seen && u in seen && SameKey(t, u) ensures t == u && seen[t] == 1 {
      LoggedKeys(h.log, t, u);
      LoggedOnce(h.log, t);
    }
  }

  ghost predicate Reached(hs: seq<History>, es: seq<Event>, n: nat, q: TaskQueueId) {
    IsRun(hs, es) && n < |hs| && |hs[n].log| <= TWO32 && q in hs[n].reg.entries
  }

  /** In states of any two runs, with at most 2^32 tasks registered, loops that see the same tasks are handed
      the same tasks in the same order, however those are spread over the heaps. */
  lemma RunFlushDeterministic(hs1: seq<History>, es1: seq<Event>, n1: nat, q1: TaskQueueId,
                              hs2: seq<History>, es2: seq<Event>, n2: nat, q2: TaskQueueId,
                              single: bool, now: TimePoint,
                              f1: seq<DelayedTask>, r1: Registry, f2: seq<DelayedTask>, r2: Registry)
    requires Reached(hs1, es1, n1, q1) && Reached(hs2, es2, n2, q2)
    requires Visible(hs1[n1].reg, q1) == Visible(hs2[n2].reg, q2)
    requires Next(hs1[n1].reg, Flush(q1, single, now, f1), r1) && Next(hs2[n2].reg, Flush(q2, single, now, f2), r2)
    ensures f1 == f2
  {
    var a, b := hs1[n1].reg, hs2[n2].reg;
    if Visible(a, q1) != multiset{} {
      RunInv(hs1, es1, n1);
      KeysAreDistinct(hs1[n1], q1);
      var p1, p2 := a.entries[q1].ownerOf, b.entries[q2].ownerOf;
      FlushDeterministic(TasksOf(a, q1), TasksOf(a, p1), TasksOf(b, q2), TasksOf(b, p2), single, now,
                         f1, TasksOf(r1, q1), TasksOf(r1, p1), f2, TasksOf(r2, q2), TasksOf(r2, p2));
    }
  }

  /** In every state of every run with at most 2^32 tasks registered, a single dequeue fires the head of what
      a full one would fire. */
  lemma RunSingleIsHeadOfAll(hs: seq<History>, es: seq<Event>, n: nat, q: TaskQueueId, now: TimePoint,
                             all: seq<DelayedTask>, r1: Registry, one: seq<DelayedTask>, r2: Registry)
    requires Reached(hs, es, n, q)
    requires Next(hs[n].reg, Flush(q, false, now, all), r1) && Next(hs[n].reg, Flush(q, true, now, one), r2)
    ensures one == if all == [] then [] else [all[0]]
  {
    var r := hs[n].reg;
    if Visible(r, q) != multiset{} {
      RunInv(hs, es, n);
      KeysAreDistinct(hs[n], q);
      var p := r.entries[q].ownerOf;
      SingleIsHeadOfAll(TasksOf(r, q), TasksOf(r, p), now, all, TasksOf(r1, q), TasksOf(r1, p),
                        one, TasksOf(r2, q), TasksOf(r2, p));
    }
  }

  /** However many tasks have been registered, loops that see the same tasks are handed tasks with the same
      keys in the same order. */
  lemma FlushesSameKeys(a: Registry, p: TaskQueueId, b: Registry, q: TaskQueueId, single: bool, now: TimePoint,
                        f1: seq<DelayedTask>, a': Registry, f2: seq<DelayedTask>, b': Registry)
    requires p in a.entries && q in b.entries && Visible(a, p) == Visible(b, q)
    requires Next(a, Flush(p, single, now, f1), a') && Next(b, Flush(q, single, now, f2), b')
    ensures Keys(f1) == Keys(f2)
  {
    if Visible(a, p) != multiset{} {
      var x, y := a.entries[p].ownerOf, b.entries[q].ownerOf;
      FlushKeysDeterministic(TasksOf(a, p), TasksOf(a, x), TasksOf(b, q), TasksOf(b, y), single, now,
                             f1, TasksOf(a', p), TasksOf(a', x), f2, TasksOf(b', q), TasksOf(b', y));
    }
  }

  /** However many tasks have been registered, a single dequeue fires a task exactly if a full one does, and
      one with the key of the first of those. */
  lemma SingleHasKeyOfHead(r: Registry, q: TaskQueueId, now: TimePoint,
                           all: seq<DelayedTask>, r1: Registry, one: seq<DelayedTask>, r2: Registry)
    requires q in r.entries
    requires Next(r, Flush(q, false, now, all), r1) && Next(r, Flush(q, true, now, one), r2)
    ensures one == [] <==> all == []
    ensures one != [] ==> |one| == 1 && SameKey(one[0], all[0])
  {
    if Visible(r, q) != multiset{} {
      var p := r.entries[q].ownerOf;
      SingleKeyIsHead(TasksOf(r, q), TasksOf(r, p), now, all, TasksOf(r1, q), TasksOf(r1, p),
                      one, TasksOf(r2, q), TasksOf(r2, p));
    }
  }

  // ---- A run that loses registration order ----

  /** Task number `i` of the run: all are due at 5, but for the first. */
  function TaskAt(i: nat): DelayedTask { DelayedTask(OrderOf(i), 0, TimeAt(i)) }

  function TimeAt(i: nat): TimePoint { if i == 0 then 10 else 5 }

  ghost function TasksUpTo(n: nat): multiset<DelayedTask> {
    if n == 0 then multiset{} else TasksUpTo(n - 1) + multiset{TaskAt(n - 1)}
  }

  ghost function LogUpTo(n: nat): (log: seq<Posted>)
    ensures |log| == n && forall i | 0 <= i < n :: log[i] == Posted(A, TaskAt(i))
  {
    if n == 0 then [] else LogUpTo(n - 1) + [Posted(A, TaskAt(n - 1))]
  }

  ghost function OneLoop(tasks: multiset<DelayedTask>, order: int): Registry {
    Registry(map[A := Entry(false, tasks, UNMERGED, UNMERGED)], 1, order, [])
  }

  ghost function AfterPosts(n: nat): History { History(OneLoop(TasksUpTo(n), WrapInt(n)), LogUpTo(n), [], multiset{}) }

  lemma CreateOne()
    ensures Step(START, Create(A), AfterPosts(0))
  {}

  lemma PostNext(n: nat)
    ensures Step(AfterPosts(n), Register(A, 0, TimeAt(n)), AfterPosts(n + 1))
  {
    WrapStep(n);
  }

  lemma {:induction false} ManyPosts(n: nat) returns (hs: seq<History>, es: seq<Event>)
    ensures IsRun(hs, es) && hs[|es|] == AfterPosts(n)
  {
    if n == 0 {
      CreateOne();
      ExtendRun([START], [], Create(A), AfterPosts(0));
      hs, es := [START] + [AfterPosts(0)], [] + [Create(A)];
    } else {
      hs, es := ManyPosts(n - 1);
      PostNext(n - 1);
      ExtendRun(hs, es, Register(A, 0, TimeAt(n - 1)), AfterPosts(n));
      hs, es := hs + [AfterPosts(n)], es + [Register(A, 0, TimeAt(n - 1))];
    }
  }

  /** The first task of the second round. */
  const OVERTAKER := DelayedTask(0, 0, 5)

  lemma OvertakerAt()
    ensures TaskAt(TWO32) == OVERTAKER && TaskAt(1) != OVERTAKER && TaskAt(1).targetTime == 5
  {}

  lemma {:induction false} TasksUpToHas(n: nat, i: nat)
    requires i < n
    ensures TaskAt(i) in TasksUpTo(n)
  {
    var init, last := TasksUpTo(n - 1), TaskAt(n - 1);
    assert TasksUpTo(n) == init + multiset{last};
    if i == n - 1 {
    } else {
      TasksUpToHas(n - 1, i);
    }
  }

  lemma {:induction false} NoneIsEarlier(n: nat, t: DelayedTask)
    requires t in TasksUpTo(n)
    ensures t.targetTime >= 5
  {
    if t == TaskAt(n - 1) {
    } else {
      NoneIsEarlier(n - 1, t);
    }
  }

  /** Once a round is over, the first task of the next one is least. */
  lemma OvertakerIsTop(n: nat)
    requires n > TWO32
    ensures IsTop(TasksUpTo(n), OVERTAKER)
  {
    OvertakerAt();
    TasksUpToHas(n, TWO32);
    forall u | u in TasksUpTo(n) ensures !Greater(OVERTAKER, u) {
      NoneIsEarlier(n, u);
    }
  }

  ghost function AfterOvertaking(n: nat): History {
    History(OneLoop(TasksUpTo(n) - multiset{OVERTAKER}, WrapInt(n)), LogUpTo(n), [OVERTAKER], multiset{})
  }

  lemma FlushesOne(all: multiset<DelayedTask>, t: DelayedTask)
    requires IsTop(all, t)
    ensures Flushed(all, multiset{}, true, t.targetTime, [t], all - multiset{t}, multiset{})
  {
    assert all + multiset{} == all == multiset([t]) + (all - multiset{t}) + multiset{};
  }

  lemma FlushOneLoop(all: multiset<DelayedTask>, order: int, t: DelayedTask)
    requires IsTop(all, t)
    ensures Next(OneLoop(all, order), Flush(A, true, t.targetTime, [t]), OneLoop(all - multiset{t}, order))
  {
    var r, r' := OneLoop(all, order), OneLoop(all - multiset{t}, order);
    FlushesOne(all, t);
    assert Visible(r, A) == all;
    assert FlushStep(r, A, true, t.targetTime, [t], r');
  }

  /** What a flush of one task adds to a history. */
  lemma FlushAdds(r: Registry, log: seq<Posted>, t: DelayedTask)
    ensures var e := Flush(A, true, t.targetTime, [t]);
            log + Logged(r, e) == log && [] + Dequeued(e) == [t] && multiset{} + Dropped(r, e) == multiset{}
  {}

  lemma Overtake(n: nat)
    requires n > TWO32
    ensures Step(AfterPosts(n), Flush(A, true, 5, [OVERTAKER]), AfterOvertaking(n))
  {
    OvertakerIsTop(n);
    FlushOneLoop(TasksUpTo(n), WrapInt(n), OVERTAKER);
    FlushAdds(OneLoop(TasksUpTo(n), WrapInt(n)), LogUpTo(n), OVERTAKER);
  }

  lemma OvertakingIsNotFifo(n: nat)
    requires n > TWO32
    ensures !Fifo(AfterOvertaking(n))
  {
    OvertakerAt();
    var h := AfterOvertaking(n);
    assert h.log[1] == Posted(A, TaskAt(1)) && h.log[TWO32] == Posted(A, OVERTAKER);
    assert Precedes(h.log, 1, TWO32) && h.fired[0] == h.log[TWO32].task;
    assert !FifoAt(h.log, h.fired, h.disposed, 1, TWO32, 0);
  }

  /** Every longer run has a companion in which a task overtakes one registered before it. */
  lemma OrderIsLost(n: nat) returns (hs: seq<History>, es: seq<Event>)
    requires n > TWO32
    ensures IsRun(hs, es) && |hs[|es|].log| == n && !Fifo(hs[|es|])
  {
    hs, es := ManyPosts(n);
    Overtake(n);
    OvertakingIsNotFifo(n);
    ExtendRun(hs, es, Flush(A, true, 5, [OVERTAKER]), AfterOvertaking(n));
    hs, es := hs + [AfterOvertaking(n)], es + [Flush(A, true, 5, [OVERTAKER])];
  }

  /** Registration order is kept in all runs of `n` registrations if and only if `n` is at most 2^32. */
  lemma FifoIff(n: nat)
    ensures (forall hs: seq<History>, es: seq<Event> | IsRun(hs, es) && |hs[|es|].log| == n :: Fifo(hs[|es|])) <==>
            n <= TWO32
  {
    if n <= TWO32 {
      forall hs: seq<History>, es: seq<Event> | IsRun(hs, es) && |hs[|es|].log| == n ensures Fifo(hs[|es|]) {
        RunFifo(hs, es, |es|);
      }
    } else {
      var hs, es := OrderIsLost(n);
      assert IsRun(hs, es) && |hs[|es|].log| == n && !Fifo(hs[|es|]);
    }
  }
}
