/** `fml::MessageLoopTaskQueues`: the registry object. Each method does what the source
    method does and is shown to be one step of the state machine. */
module TaskQueues {
  import opened DelayedTasks
  import opened TaskQueueSpec

  class MessageLoopTaskQueues {
    var entries: map<TaskQueueId, Entry>
    var taskQueueIdCounter: nat
    /** `order_`, a 32-bit `atomic_int`. */
    var order: int
    /** Every `Wakeable::WakeUp` call made so far. */
    var wakes: seq<Wake>

    ghost function View(): Registry
      reads this
    {
      Registry(entries, taskQueueIdCounter, order, wakes)
    }

    ghost predicate Valid()
      reads this
    {
      Paired(View()) && -0x8000_0000 <= order < 0x8000_0000
    }

    constructor ()
      ensures Valid() && View() == EMPTY
    {
      entries, taskQueueIdCounter, order, wakes := map[], 0, 0, [];
    }

    method CreateTaskQueue() returns (id: TaskQueueId)
      requires Valid()
      modifies this
      ensures Valid() && Next(old(View()), Create(id), View())
      ensures id !in old(entries)
    {
      ghost var r := View();
      id := TaskQueueId(taskQueueIdCounter);
      taskQueueIdCounter := taskQueueIdCounter + 1;
      entries := entries[id := NEW_ENTRY];
      NextKeepsPairing(r, Create(id), View());
    }

    method Dispose(q: TaskQueueId)
      requires Valid() && q in entries && entries[q].subsumedBy == UNMERGED
      modifies this
      ensures Valid() && Next(old(View()), Event.Dispose(q), View())
    {
      ghost var r := View();
      assert PairedAt(r, q);
      var subsumed := entries[q].ownerOf;
      entries := entries - {q};
      if subsumed != UNMERGED {
        entries := entries - {subsumed};
      }
      assert entries == r.entries - Group(r, q);
      NextKeepsPairing(r, Event.Dispose(q), View());
    }

    method DisposeTasks(q: TaskQueueId)
      requires Valid() && q in entries && entries[q].subsumedBy == UNMERGED
      modifies this
      ensures Valid() && Next(old(View()), Event.DisposeTasks(q), View())
    {
      ghost var r := View();
      assert PairedAt(r, q);
      var subsumed := entries[q].ownerOf;
      entries := entries[q := entries[q].(tasks := multiset{})];
      if subsumed != UNMERGED {
        entries := entries[subsumed := entries[subsumed].(tasks := multiset{})];
      }
      NextKeepsPairing(r, Event.DisposeTasks(q), View());
    }

    method RegisterTask(q: TaskQueueId, task: Closure, targetTime: TimePoint)
      requires Valid() && q in entries
      modifies this
      ensures Valid() && Next(old(View()), Register(q, task, targetTime), View())
    {
      ghost var r := View();
      assert PairedAt(r, q);
      var o := ToSize(order);
      order := NextOrder(order);
      var tasks := entries[q].tasks + multiset{DelayedTask(o, task, targetTime)};
      entries := entries[q := entries[q].(tasks := tasks)];
      var loopToWake := q;
      if entries[q].subsumedBy != UNMERGED {
        loopToWake := entries[q].subsumedBy;
      }
      assert DelayedTask(o, task, targetTime) in tasks;
      var top := Top(tasks);
      WakeUpUnlocked(loopToWake, top.targetTime);
      TopIsEarliest(tasks, top);
      NextKeepsPairing(r, Register(q, task, targetTime), View());
    }

    /** Subsumed queues never have pending tasks; owners answer for both queues. */
    predicate HasPendingTasks(q: TaskQueueId)
      requires Valid() && q in entries
      reads this
      ensures HasPendingTasks(q) <==> Visible(View(), q) != multiset{}
      ensures HasPendingTasks(q) <==> GetNumPendingTasks(q) > 0
    {
      assert PairedAt(View(), q);
      if entries[q].subsumedBy != UNMERGED then false
      else if entries[q].tasks != multiset{} then true
      else if entries[q].ownerOf == UNMERGED then false
      else entries[entries[q].ownerOf].tasks != multiset{}
    }

    function GetNumPendingTasks(q: TaskQueueId): (n: nat)
      requires Valid() && q in entries
      reads this
      ensures n == |Visible(View(), q)|
    {
      assert PairedAt(View(), q);
      if entries[q].subsumedBy != UNMERGED then 0
      else |entries[q].tasks| + (if entries[q].ownerOf != UNMERGED then |entries[entries[q].ownerOf].tasks| else 0)
    }

    predicate Owns(owner: TaskQueueId, subsumed: TaskQueueId)
      requires owner in entries
      reads this
    {
      subsumed == entries[owner].ownerOf || owner == subsumed
    }

    method SetWakeable(q: TaskQueueId)
      requires Valid() && q in entries && !entries[q].wakeable
      modifies this
      ensures Valid() && Next(old(View()), Event.SetWakeable(q), View())
    {
      ghost var r := View();
      entries := entries[q := entries[q].(wakeable := true)];
      NextKeepsPairing(r, Event.SetWakeable(q), View());
    }

    method WakeUpUnlocked(q: TaskQueueId, time: TimePoint)
      requires q in entries
      modifies this`wakes
      ensures wakes == old(wakes) + WakeUp(old(View()), q, time)
    {
      if entries[q].wakeable {
        wakes := wakes + [Wake(q, time)];
      }
    }

    /** The least task of the queue and of the queue it owns, and the heap it is in. */
    method PeekNextTaskUnlocked(owner: TaskQueueId) returns (top: DelayedTask, topQueue: TaskQueueId)
      requires Valid() && owner in entries && HasPendingTasks(owner)
      ensures topQueue in Group(View(), owner) && topQueue in entries
      ensures IsTop(entries[topQueue].tasks, top)
      ensures IsTop(Visible(View(), owner), top)
    {
      assert PairedAt(View(), owner);
      var subsumed := entries[owner].ownerOf;
      if subsumed == UNMERGED {
        topQueue := owner;
        top := Top(entries[owner].tasks);
        return;
      }
      var ownerTasks, subsumedTasks := entries[owner].tasks, entries[subsumed].tasks;
      if ownerTasks != multiset{} && subsumedTasks != multiset{} {
        var ownerTask := Top(ownerTasks);
        var subsumedTask := Top(subsumedTasks);
        if Greater(ownerTask, subsumedTask) {
          topQueue, top := subsumed, subsumedTask;
        } else {
          topQueue, top := owner, ownerTask;
        }
      } else if ownerTasks != multiset{} {
        topQueue := owner;
        top := Top(ownerTasks);
      } else {
        topQueue := subsumed;
        top := Top(subsumedTasks);
      }
    }

    method GetNextWakeTimeUnlocked(q: TaskQueueId) returns (time: TimePoint)
      requires Valid() && q in entries && HasPendingTasks(q)
      ensures time == EarliestTime(Visible(View(), q))
    {
      var top, _ := PeekNextTaskUnlocked(q);
      TopIsEarliest(Visible(View(), q), top);
      time := top.targetTime;
    }

    method WakeUpIfPending(q: TaskQueueId)
      requires Valid() && q in entries
      modifies this`wakes
      ensures Valid() && wakes == old(wakes) + WakeIfPending(old(View()), q)
    {
      if HasPendingTasks(q) {
        var time := GetNextWakeTimeUnlocked(q);
        WakeUpUnlocked(q, time);
      }
    }

    method Merge(owner: TaskQueueId, subsumed: TaskQueueId) returns (ok: bool)
      requires Valid() && (owner != subsumed ==> owner in entries && subsumed in entries)
      modifies this
      ensures Valid() && Next(old(View()), Event.Merge(owner, subsumed, ok), View())
      ensures ok <==> owner == subsumed || (owner in entries && entries[owner].ownerOf == subsumed)
    {
      ghost var r := View();
      if owner == subsumed {
        return true;
      }
      if entries[owner].ownerOf == subsumed {
        return true;
      }
      var keys := [entries[owner].ownerOf, entries[owner].subsumedBy,
                   entries[subsumed].ownerOf, entries[subsumed].subsumedBy];
      for i := 0 to |keys|
        invariant forall k | 0 <= k < i :: keys[k] == UNMERGED
        invariant View() == r
      {
        if keys[i] != UNMERGED {
          return false;
        }
      }
      assert keys[0] == keys[1] == keys[2] == keys[3] == UNMERGED;
      entries := entries[owner := entries[owner].(ownerOf := subsumed)];
      entries := entries[subsumed := entries[subsumed].(subsumedBy := owner)];
      LinkKeepsPairing(r, owner, subsumed, View());
      WakeUpIfPending(owner);
      NextKeepsPairing(r, Event.Merge(owner, subsumed, true), View());
      return true;
    }

    method Unmerge(owner: TaskQueueId) returns (ok: bool)
      requires Valid() && owner in entries
      modifies this
      ensures Valid() && Next(old(View()), Event.Unmerge(owner, ok), View())
      ensures ok <==> old(entries)[owner].ownerOf != UNMERGED
    {
      ghost var r := View();
      assert PairedAt(r, owner);
      var subsumed := entries[owner].ownerOf;
      if subsumed == UNMERGED {
        return false;
      }
      entries := entries[subsumed := entries[subsumed].(subsumedBy := UNMERGED)];
      entries := entries[owner := entries[owner].(ownerOf := UNMERGED)];
      assert entries == Unlink(r.entries, owner, subsumed);
      UnlinkKeepsPairing(r, owner, subsumed, View());
      ghost var split := View();
      WakeUpIfPending(owner);
      assert Visible(View(), subsumed) == Visible(split, subsumed);
      WakeUpIfPending(subsumed);
      NextKeepsPairing(r, Event.Unmerge(owner, true), View());
      return true;
    }

    /** Appends the closures of the tasks that are due to `invocations` (one at most when
        `single`); `fired` names those tasks. */
    method GetTasksToRunNow(q: TaskQueueId, single: bool, now: TimePoint, invocations: seq<Closure>)
      returns (out: seq<Closure>, ghost fired: seq<DelayedTask>)
      requires Valid() && q in entries
      modifies this
      ensures Valid() && Next(old(View()), Flush(q, single, now, fired), View())
      ensures out == invocations + Closures(fired)
    {
      ghost var r := View();
      out, fired := invocations, [];
      if !HasPendingTasks(q) {
        return;
      }
      out, fired := PopDueTasks(q, single, now, invocations);
      ghost var rest := View();
      WakeForNext(q);
      PoppedIsFlush(r, q, single, now, fired, rest, View());
    }

    /** The wake that ends `GetTasksToRunNow`. */
    method WakeForNext(q: TaskQueueId)
      requires Valid() && q in entries
      modifies this`wakes
      ensures Valid() && View() == old(View()).(wakes := wakes)
      ensures wakes == old(wakes) + WakeUp(old(View()), q, EarliestTime(Visible(old(View()), q)))
    {
      if !HasPendingTasks(q) {
        WakeUpUnlocked(q, MAX_TIME);
      } else {
        var time := GetNextWakeTimeUnlocked(q);
        WakeUpUnlocked(q, time);
      }
    }

    /** Taking the least task off the heap of one queue. */
    method PopTop(k: TaskQueueId, top: DelayedTask)
      requires k in entries && top in entries[k].tasks
      modifies this`entries
      ensures View() == Pop(old(View()), k, top)
    {
      entries := entries[k := entries[k].(tasks := entries[k].tasks - multiset{top})];
    }

    /** The loop of `GetTasksToRunNow`. */
    method PopDueTasks(q: TaskQueueId, single: bool, now: TimePoint, invocations: seq<Closure>)
      returns (out: seq<Closure>, ghost fired: seq<DelayedTask>)
      requires Valid() && q in entries && HasPendingTasks(q)
      modifies this`entries
      ensures Valid() && q in entries && PoppedAll(old(View()), q, single, now, fired, View())
      ensures out == invocations + Closures(fired)
    {
      ghost var r := View();
      out, fired := invocations, [];
      PoppedNone(r, q, now);
      while HasPendingTasks(q)
        invariant Valid() && q in entries && Popped(r, q, now, fired, View())
        invariant out == invocations + Closures(fired)
        invariant single ==> fired == []
        decreases |Visible(View(), q)|
      {
        var top, topQueue := PeekNextTaskUnlocked(q);
        if top.targetTime > now {
          PoppedStops(r, q, single, now, fired, View(), top);
          return;
        }
        PoppedMore(r, q, now, fired, View(), top, topQueue);
        out := out + [top.task];
        PopTop(topQueue, top);
        ClosuresAppend(invocations, fired, top);
        fired := fired + [top];
        if single {
          PoppedOne(r, q, now, top, View());
          return;
        }
      }
      PoppedRest(r, q, single, now, fired, View());
    }
  }

  /** Part way through the loop: `fired` has been popped from the two heaps of `r`, in order. */
  ghost predicate Popped(r: Registry, q: TaskQueueId, now: TimePoint, fired: seq<DelayedTask>, v: Registry) {
    && Paired(r) && q in r.entries && r.entries[q].subsumedBy == UNMERGED && Draining(r, q, v)
    && var p := r.entries[q].ownerOf;
    FlushedSoFar(TasksOf(r, q), TasksOf(r, p), now, fired, TasksOf(v, q), TasksOf(v, p))
  }

  ghost predicate PoppedAll(r: Registry, q: TaskQueueId, single: bool, now: TimePoint, fired: seq<DelayedTask>,
                            v: Registry)
  {
    && q in r.entries && Draining(r, q, v)
    && var p := r.entries[q].ownerOf;
    Flushed(TasksOf(r, q), TasksOf(r, p), single, now, fired, TasksOf(v, q), TasksOf(v, p))
  }

  lemma PoppedNone(r: Registry, q: TaskQueueId, now: TimePoint)
    requires Paired(r) && q in r.entries && Visible(r, q) != multiset{}
    ensures Popped(r, q, now, [], r)
  {
  }

  /** Registry `v` without task `t` of queue `k`. */
  function Pop(v: Registry, k: TaskQueueId, t: DelayedTask): Registry
    requires k in v.entries
  {
    v.(entries := v.entries[k := v.entries[k].(tasks := v.entries[k].tasks - multiset{t})])
  }

  lemma PoppedMore(r: Registry, q: TaskQueueId, now: TimePoint, fired: seq<DelayedTask>, v: Registry,
                   top: DelayedTask, topQueue: TaskQueueId)
    requires Popped(r, q, now, fired, v) && q in v.entries && top.targetTime <= now
    requires topQueue in Group(v, q) && topQueue in v.entries
    requires top in v.entries[topQueue].tasks && IsTop(Visible(v, q), top)
    ensures var v' := Pop(v, topQueue, top);
            && Popped(r, q, now, fired + [top], v') && Paired(v')
            && q in v'.entries && |Visible(v', q)| < |Visible(v, q)|
  {
    var p := r.entries[q].ownerOf;
    DrainingLinks(r, q, v);
    PopKeeps(r, q, v, top, topQueue);
    FlushPop(TasksOf(r, q), TasksOf(r, p), now, fired, TasksOf(v, q), TasksOf(v, p), top, topQueue == q);
  }

  lemma PoppedStops(r: Registry, q: TaskQueueId, single: bool, now: TimePoint, fired: seq<DelayedTask>, v: Registry,
                    top: DelayedTask)
    requires Popped(r, q, now, fired, v) && (single ==> fired == []) && q in v.entries
    requires IsTop(Visible(v, q), top) && top.targetTime > now
    ensures PoppedAll(r, q, single, now, fired, v)
  {
    var p := r.entries[q].ownerOf;
    DrainingLinks(r, q, v);
    FlushStops(TasksOf(r, q), TasksOf(r, p), single, now, fired, TasksOf(v, q), TasksOf(v, p), top);
  }

  lemma PoppedOne(r: Registry, q: TaskQueueId, now: TimePoint, top: DelayedTask, v: Registry)
    requires Popped(r, q, now, [top], v)
    ensures PoppedAll(r, q, true, now, [top], v)
  {
    var p := r.entries[q].ownerOf;
    FlushOne(TasksOf(r, q), TasksOf(r, p), now, top, TasksOf(v, q), TasksOf(v, p));
  }

  lemma PoppedRest(r: Registry, q: TaskQueueId, single: bool, now: TimePoint, fired: seq<DelayedTask>, v: Registry)
    requires Popped(r, q, now, fired, v) && (single ==> fired == []) && q in v.entries && Visible(v, q) == multiset{}
    ensures PoppedAll(r, q, single, now, fired, v)
  {}

  lemma PoppedIsFlush(r: Registry, q: TaskQueueId, single: bool, now: TimePoint, fired: seq<DelayedTask>, v: Registry,
                      r': Registry)
    requires Paired(r) && PoppedAll(r, q, single, now, fired, v) && r.entries[q].subsumedBy == UNMERGED
    requires q in v.entries && r' == v.(wakes := r.wakes + WakeUp(v, q, EarliestTime(Visible(v, q))))
    ensures FlushStep(r, q, single, now, fired, r')
  {
    DrainingPuts(r, q, v);
    DrainingLinks(r, q, v);
    assert Visible(r', q) == Visible(v, q);
    assert v.entries[q].wakeable == r.entries[q].wakeable;
  }

  /** State `v` differs from `r` only in the heaps of `q` and of the queue it owns. */
  ghost predicate Draining(r: Registry, q: TaskQueueId, v: Registry)
    requires q in r.entries
  {
    && v == r.(entries := v.entries) && v.entries.Keys == r.entries.Keys
    && forall k | k in r.entries ::
         v.entries[k] == if k in Group(r, q) then r.entries[k].(tasks := v.entries[k].tasks) else r.entries[k]
  }

  lemma DrainingLinks(r: Registry, q: TaskQueueId, v: Registry)
    requires Paired(r) && q in r.entries && Draining(r, q, v)
    ensures Paired(v) && q in v.entries
    ensures v.entries[q].ownerOf == r.entries[q].ownerOf && v.entries[q].subsumedBy == r.entries[q].subsumedBy
    ensures Group(v, q) == Group(r, q)
    ensures r.entries[q].subsumedBy == UNMERGED ==>
              Visible(v, q) == TasksOf(v, q) + TasksOf(v, r.entries[q].ownerOf)
  {
    SameLinksKeepsPairing(r, v);
  }

  lemma DrainingPuts(r: Registry, q: TaskQueueId, v: Registry)
    requires Paired(r) && q in r.entries && Draining(r, q, v)
    ensures var p := r.entries[q].ownerOf;
      v.entries == PutTasks(PutTasks(r.entries, q, TasksOf(v, q)), p, TasksOf(v, p))
  {}

  ghost predicate FlushedSoFar(own: multiset<DelayedTask>, sub: multiset<DelayedTask>, now: TimePoint,
                               fired: seq<DelayedTask>, own': multiset<DelayedTask>, sub': multiset<DelayedTask>)
  {
    && own' <= own && sub' <= sub
    && own + sub == multiset(fired) + own' + sub'
    && Sorted(fired)
    && (forall t | t in fired :: t.targetTime <= now)
    && (forall t, u | t in fired && u in own' + sub' :: !Greater(t, u))
  }

  lemma FlushPop(own: multiset<DelayedTask>, sub: multiset<DelayedTask>, now: TimePoint, fired: seq<DelayedTask>,
                 own': multiset<DelayedTask>, sub': multiset<DelayedTask>, top: DelayedTask, inOwn: bool)
    requires FlushedSoFar(own, sub, now, fired, own', sub')
    requires IsTop(own' + sub', top) && top in (if inOwn then own' else sub') && top.targetTime <= now
    ensures FlushedSoFar(own, sub, now, fired + [top], Without(own', top, inOwn), Without(sub', top, !inOwn))
  {}

  lemma FlushStops(own: multiset<DelayedTask>, sub: multiset<DelayedTask>, single: bool, now: TimePoint,
                   fired: seq<DelayedTask>, own': multiset<DelayedTask>, sub': multiset<DelayedTask>, top: DelayedTask)
    requires FlushedSoFar(own, sub, now, fired, own', sub') && (single ==> fired == [])
    requires IsTop(own' + sub', top) && top.targetTime > now
    ensures Flushed(own, sub, single, now, fired, own', sub')
  {
    forall t | t in own' + sub' ensures t.targetTime > now { assert !Greater(top, t); }
    if single { assert own + sub == own' + sub'; }
  }

  lemma FlushOne(own: multiset<DelayedTask>, sub: multiset<DelayedTask>, now: TimePoint, top: DelayedTask,
                 own': multiset<DelayedTask>, sub': multiset<DelayedTask>)
    requires FlushedSoFar(own, sub, now, [top], own', sub')
    ensures Flushed(own, sub, true, now, [top], own', sub')
  {}

  /** Task `t` is gone from heap `tasks` if `here`. */
  function Without(tasks: multiset<DelayedTask>, t: DelayedTask, here: bool): multiset<DelayedTask> {
    if here then tasks - multiset{t} else tasks
  }

  lemma PopVisible(v: Registry, q: TaskQueueId, top: DelayedTask, topQueue: TaskQueueId)
    requires Paired(v) && q in v.entries && v.entries[q].subsumedBy == UNMERGED
    requires topQueue in Group(v, q) && topQueue in v.entries && top in v.entries[topQueue].tasks
    ensures var v', p := Pop(v, topQueue, top), v.entries[q].ownerOf;
            && q in v'.entries && |Visible(v', q)| < |Visible(v, q)|
            && (topQueue != q ==> topQueue == p)
            && TasksOf(v', q) == Without(TasksOf(v, q), top, topQueue == q)
            && TasksOf(v', p) == Without(TasksOf(v, p), top, topQueue != q)
  {
    assert PairedAt(v, q);
    WithoutFewer(TasksOf(v, q), TasksOf(v, v.entries[q].ownerOf), top, topQueue == q);
  }

  lemma WithoutFewer(own: multiset<DelayedTask>, sub: multiset<DelayedTask>, t: DelayedTask, inOwn: bool)
    requires t in if inOwn then own else sub
    ensures |Without(own, t, inOwn) + Without(sub, t, !inOwn)| < |own + sub|
  {
    assert Without(own, t, inOwn) + Without(sub, t, !inOwn) == own + sub - multiset{t};
  }

  lemma PopDraining(r: Registry, q: TaskQueueId, v: Registry, k: TaskQueueId, t: DelayedTask)
    requires q in r.entries && Draining(r, q, v) && k in Group(r, q) && k in v.entries
    ensures Draining(r, q, Pop(v, k, t))
  {}

  lemma PopKeeps(r: Registry, q: TaskQueueId, v: Registry, top: DelayedTask, topQueue: TaskQueueId)
    requires Paired(r) && Paired(v) && q in r.entries && r.entries[q].subsumedBy == UNMERGED && Draining(r, q, v)
    requires topQueue in Group(r, q) && topQueue in v.entries && top in v.entries[topQueue].tasks
    ensures var v', p := Pop(v, topQueue, top), r.entries[q].ownerOf;
            && Paired(v') && Draining(r, q, v')
            && (topQueue != q ==> topQueue == p)
            && TasksOf(v', q) == Without(TasksOf(v, q), top, topQueue == q)
            && TasksOf(v', p) == Without(TasksOf(v, p), top, topQueue != q)
            && q in v.entries && q in v'.entries && |Visible(v', q)| < |Visible(v, q)|
  {
    assert PairedAt(r, q);
    DrainingLinks(r, q, v);
    PopVisible(v, q, top, topQueue);
    PopDraining(r, q, v, topQueue, top);
    DrainingLinks(r, q, Pop(v, topQueue, top));
  }

  function Closures(s: seq<DelayedTask>): seq<Closure> {
    if s == [] then [] else Closures(s[..|s| - 1]) + [s[|s| - 1].task]
  }

  lemma ClosuresAppend(invocations: seq<Closure>, s: seq<DelayedTask>, t: DelayedTask)
    ensures invocations + Closures(s + [t]) == invocations + Closures(s) + [t.task]
  {}
}
