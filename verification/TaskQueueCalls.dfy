/** What each call of the task queue registry answers and does, as its callers see it: in terms of which queues are
    live, which loop serves a queue, what that loop sees, and which loops are woken. */
module TaskQueueCalls {
  import opened DelayedTasks
  import opened TaskQueueSpec
  import opened TaskQueueRuns

  // ---- Loops ----

  /** A loop sees the tasks of the queues it serves, and no others; a queue that another loop serves sees none. */
  lemma SeesWhatItServes(r: Registry, a: TaskQueueId, b: TaskQueueId)
    requires Paired(r) && a in r.entries && b in r.entries && a != b
    ensures Owns(r, a, b) <==> LoopOf(r, b) == a
    ensures LoopOf(r, b) == a ==> LoopOf(r, a) == a && Visible(r, b) == multiset{}
    ensures LoopOf(r, b) == a ==> Visible(r, a) == r.entries[a].tasks + r.entries[b].tasks
    ensures Partner(r, a) == UNMERGED ==> LoopOf(r, a) == a && Visible(r, a) == r.entries[a].tasks
  {
    assert PairedAt(r, a) && PairedAt(r, b);
  }

  // ---- Merge ----

  /** The queues other than these two are as they were. */
  ghost predicate OnlyPairChanged(r: Registry, a: TaskQueueId, b: TaskQueueId, r': Registry) {
    && r'.entries.Keys == r.entries.Keys
    && forall k | k in r.entries && k != a && k != b :: r'.entries[k] == r.entries[k]
  }

  /** `Merge` answers whether the first queue owns the second from then on. For two queues that are not a pair yet
      that is so exactly if neither has a partner. A merge that is refused changes nothing. */
  lemma MergeAnswer(r: Registry, owner: TaskQueueId, sub: TaskQueueId, ok: bool, r': Registry)
    requires Paired(r) && Next(r, Merge(owner, sub, ok), r')
    ensures ok <==> owner == sub || (owner in r'.entries && r'.entries[owner].ownerOf == sub)
    ensures owner != sub && r.entries[owner].ownerOf != sub ==>
              (ok <==> Partner(r, owner) == UNMERGED && Partner(r, sub) == UNMERGED)
    ensures !ok || owner == sub || r.entries[owner].ownerOf == sub ==> r' == r
  {
    if owner != sub { assert PairedAt(r, owner) && PairedAt(r, sub); }
  }

  /** After a merge the loop of the first queue serves both, and sees what the two loops saw before. */
  lemma MergeJoins(r: Registry, owner: TaskQueueId, sub: TaskQueueId, r': Registry)
    requires Paired(r) && Next(r, Merge(owner, sub, true), r') && owner != sub && r.entries[owner].ownerOf != sub
    ensures OnlyPairChanged(r, owner, sub, r')
    ensures LoopOf(r', owner) == owner && LoopOf(r', sub) == owner
    ensures Visible(r', owner) == Visible(r, owner) + Visible(r, sub) && Visible(r', sub) == multiset{}
  {
    assert PairedAt(r, owner) && PairedAt(r, sub);
  }

  // ---- Unmerge ----

  /** `Unmerge` answers whether the queue owned another; otherwise it changes nothing. */
  lemma UnmergeAnswer(r: Registry, owner: TaskQueueId, ok: bool, r': Registry)
    requires Paired(r) && Next(r, Unmerge(owner, ok), r')
    ensures ok <==> r.entries[owner].ownerOf != UNMERGED
    ensures !ok ==> r' == r
    ensures r'.entries[owner].ownerOf == UNMERGED
  {
    assert PairedAt(r, owner);
  }

  /** After an unmerge each of the two loops serves its own queue, and they share what the one loop saw. */
  lemma UnmergeSplits(r: Registry, owner: TaskQueueId, r': Registry)
    requires Paired(r) && Next(r, Unmerge(owner, true), r')
    ensures var sub := r.entries[owner].ownerOf;
            && sub in r.entries && OnlyPairChanged(r, owner, sub, r')
            && LoopOf(r', owner) == owner && LoopOf(r', sub) == sub
            && Visible(r', owner) == r.entries[owner].tasks && Visible(r', sub) == r.entries[sub].tasks
            && Visible(r', owner) + Visible(r', sub) == Visible(r, owner)
  {
    assert PairedAt(r, owner);
  }

  lemma LinksAreInverse(m: map<TaskQueueId, Entry>, owner: TaskQueueId, sub: TaskQueueId)
    requires owner in m && sub in m && owner != sub
    ensures m[owner].ownerOf == UNMERGED && m[sub].subsumedBy == UNMERGED ==>
              Unlink(Link(m, owner, sub), owner, sub) == m
    ensures m[owner].ownerOf == sub && m[sub].subsumedBy == owner ==> Link(Unlink(m, owner, sub), owner, sub) == m
  {}

  /** Unmerging undoes a merge. */
  lemma UnmergeUndoesMerge(r: Registry, owner: TaskQueueId, sub: TaskQueueId, r1: Registry, ok: bool, r2: Registry)
    requires Paired(r) && Next(r, Merge(owner, sub, true), r1) && Next(r1, Unmerge(owner, ok), r2)
    requires owner != sub && r.entries[owner].ownerOf != sub
    ensures ok && r2.entries == r.entries
  {
    assert PairedAt(r, owner) && PairedAt(r, sub);
    LinksAreInverse(r.entries, owner, sub);
    assert r1.entries == Link(r.entries, owner, sub) && r1.entries[owner].ownerOf == sub;
  }

  /** Merging a pair again undoes an unmerge. */
  lemma MergeUndoesUnmerge(r: Registry, owner: TaskQueueId, r1: Registry, ok: bool, r2: Registry)
    requires Paired(r) && Next(r, Unmerge(owner, true), r1)
    requires Next(r1, Merge(owner, r.entries[owner].ownerOf, ok), r2)
    ensures ok && r2.entries == r.entries
  {
    var sub := r.entries[owner].ownerOf;
    assert PairedAt(r, owner) && PairedAt(r, sub);
    LinksAreInverse(r.entries, owner, sub);
    assert r1.entries == Unlink(r.entries, owner, sub) && Mergeable(r1, owner, sub);
  }

  // ---- Create and dispose ----

  /** A new queue has an id that was not in use, no tasks, no partner and no wakeable; all others are as before. */
  lemma CreateAdds(r: Registry, id: TaskQueueId, r': Registry)
    requires Paired(r) && Next(r, Create(id), r')
    ensures id !in r.entries && r'.entries.Keys == r.entries.Keys + {id}
    ensures Partner(r', id) == UNMERGED && Visible(r', id) == multiset{} && !r'.entries[id].wakeable
    ensures forall k | k in r.entries :: r'.entries[k] == r.entries[k]
  {}

  /** Exactly the queues that the loop of `q` serves go; the others are as before. */
  lemma DisposeRemoves(r: Registry, q: TaskQueueId, r': Registry)
    requires Paired(r) && Next(r, Dispose(q), r')
    ensures forall k :: k in r'.entries <==> k in r.entries && k != q && r.entries[k].subsumedBy != q
    ensures forall k :: k in r'.entries <==> k in r.entries && LoopOf(r, k) != q
    ensures forall k | k in r'.entries :: r'.entries[k] == r.entries[k]
  {
    assert PairedAt(r, q);
    forall k ensures k in r'.entries <==> k in r.entries && k != q && r.entries[k].subsumedBy != q {
      if k in r.entries { assert PairedAt(r, k); }
    }
  }

  /** Exactly the queues that the loop of `q` serves lose their tasks, and nothing else is lost. */
  lemma DisposeTasksEmpties(r: Registry, q: TaskQueueId, r': Registry)
    requires Paired(r) && Next(r, DisposeTasks(q), r')
    ensures r'.entries.Keys == r.entries.Keys && Visible(r', q) == multiset{}
    ensures forall k | k in r.entries ::
              r'.entries[k] == if LoopOf(r, k) == q then r.entries[k].(tasks := multiset{}) else r.entries[k]
  {
    assert PairedAt(r, q);
    forall k | k in r.entries
      ensures r'.entries[k] == if LoopOf(r, k) == q then r.entries[k].(tasks := multiset{}) else r.entries[k]
    {
      assert PairedAt(r, k);
    }
  }

  // ---- Register ----

  /** The task, with the next order number, joins the heap of its queue, and no other queue changes. */
  lemma RegisterAdds(r: Registry, q: TaskQueueId, c: Closure, time: TimePoint, r': Registry)
    requires Next(r, Register(q, c, time), r')
    ensures var t := DelayedTask(ToSize(r.order), c, time);
            && r'.entries.Keys == r.entries.Keys
            && r'.entries[q] == r.entries[q].(tasks := r.entries[q].tasks + multiset{t})
            && forall k | k in r.entries && k != q :: r'.entries[k] == r.entries[k]
  {}

  /** The loop that serves the queue sees the task from then on, and no other loop does. */
  lemma RegisterShows(r: Registry, q: TaskQueueId, c: Closure, time: TimePoint, r': Registry, k: TaskQueueId)
    requires Paired(r) && Next(r, Register(q, c, time), r') && k in r.entries
    ensures k in r'.entries && Visible(r', k) ==
              Visible(r, k) + if k == LoopOf(r, q) then multiset{DelayedTask(ToSize(r.order), c, time)} else multiset{}
  {
    RegisterAdds(r, q, c, time, r');
    assert PairedAt(r, q) && PairedAt(r, k);
    SeesNew(r, q, DelayedTask(ToSize(r.order), c, time), r', k);
  }

  lemma SeesNew(r: Registry, q: TaskQueueId, t: DelayedTask, r': Registry, k: TaskQueueId)
    requires q in r.entries && k in r.entries && PairedAt(r, q) && PairedAt(r, k)
    requires r'.entries.Keys == r.entries.Keys
    requires r'.entries[q] == r.entries[q].(tasks := r.entries[q].tasks + multiset{t})
    requires forall k | k in r.entries && k != q :: r'.entries[k] == r.entries[k]
    ensures Visible(r', k) == Visible(r, k) + if k == LoopOf(r, q) then multiset{t} else multiset{}
  {
    var p := r.entries[k].ownerOf;
    assert k == q ==> r'.entries[k].tasks == r.entries[k].tasks + multiset{t};
    assert p == q ==> TasksOf(r', p) == TasksOf(r, p) + multiset{t};
  }

  // ---- Wakes ----

  /** The calls of `WakeUp` that event `e`, from `r` to `r'`, is to make. */
  ghost predicate Woken(r: Registry, e: Event, r': Registry, w: Wake) {
    && w.queue in r'.entries && r'.entries[w.queue].wakeable
    && match e
       case Register(q, _, _) =>
         q in r.entries && w.queue == LoopOf(r, q) && w.time == EarliestTime(TasksOf(r', q))
       case Flush(q, _, _, _) =>
         q in r.entries && Visible(r, q) != multiset{} && w.queue == q && w.time == EarliestTime(Visible(r', q))
       case Merge(owner, sub, ok) =>
         && ok && owner != sub && w.queue == owner && owner in r.entries && r.entries[owner].ownerOf != sub
         && Visible(r', owner) != multiset{} && w.time == EarliestTime(Visible(r', owner))
       case Unmerge(owner, ok) =>
         && ok && owner in r.entries && w.queue in {owner, r.entries[owner].ownerOf}
         && Visible(r', w.queue) != multiset{} && w.time == EarliestTime(Visible(r', w.queue))
       case _ => false
  }

  /** At most one wake for each loop; the owner of a pair that is split comes first. */
  ghost predicate OneEach(e: Event, ws: seq<Wake>) {
    forall i, j | 0 <= i < j < |ws| :: ws[i].queue != ws[j].queue && e.Unmerge? && ws[i].queue == e.owner
  }

  ghost predicate WakesExactly(r: Registry, e: Event, r': Registry) {
    && r.wakes <= r'.wakes
    && var ws := r'.wakes[|r.wakes|..];
    OneEach(e, ws) && forall w: Wake :: w in ws <==> Woken(r, e, r', w)
  }

  lemma WakesAre(r: Registry, e: Event, r': Registry, ws: seq<Wake>)
    requires r'.wakes == r.wakes + ws && OneEach(e, ws) && forall w: Wake :: w in ws <==> Woken(r, e, r', w)
    ensures WakesExactly(r, e, r')
  {
    assert r'.wakes[|r.wakes|..] == ws;
  }

  /** A call wakes exactly the loops it is to wake, each once, for the earliest task there is to run (or, on a
      registration, the earliest of that queue's own heap), and of those only loops with a wakeable. */
  lemma WakesOfCall(r: Registry, e: Event, r': Registry)
    requires Paired(r) && Next(r, e, r')
    ensures WakesExactly(r, e, r')
  {
    match e
    case Register(q, c, time) => WakesOfRegister(r, q, c, time, r');
    case Flush(q, single, now, fired) => WakesOfFlush(r, q, single, now, fired, r');
    case Merge(owner, sub, ok) => WakesOfMerge(r, owner, sub, ok, r');
    case Unmerge(owner, ok) => WakesOfUnmerge(r, owner, ok, r');
    case _ => WakesAre(r, e, r', []);
  }

  lemma WakesOfRegister(r: Registry, q: TaskQueueId, c: Closure, time: TimePoint, r': Registry)
    requires Paired(r) && Next(r, Register(q, c, time), r')
    ensures WakesExactly(r, Register(q, c, time), r')
  {
    assert PairedAt(r, q);
    WakesAre(r, Register(q, c, time), r', WakeUp(r, LoopOf(r, q), EarliestTime(r'.entries[q].tasks)));
  }

  /** What a dequeue leaves of the queue itself. */
  lemma FlushKeepsQueue(r: Registry, q: TaskQueueId, single: bool, now: TimePoint, fired: seq<DelayedTask>,
                        r': Registry)
    requires q in r.entries && FlushStep(r, q, single, now, fired, r')
    ensures q in r'.entries && r'.entries[q].wakeable == r.entries[q].wakeable
    ensures r'.wakes == r.wakes + WakeUp(r, q, EarliestTime(Visible(r', q)))
  {}

  lemma WakesAtFlush(r: Registry, e: Event, r': Registry, q: TaskQueueId)
    requires e.Flush? && e.q == q && q in r.entries && Visible(r, q) != multiset{} && q in r'.entries
    requires r'.entries[q].wakeable == r.entries[q].wakeable
    requires r'.wakes == r.wakes + WakeUp(r, q, EarliestTime(Visible(r', q)))
    ensures WakesExactly(r, e, r')
  {
    var time := EarliestTime(Visible(r', q));
    assert forall w: Wake :: Woken(r, e, r', w) <==> r.entries[q].wakeable && w == Wake(q, time);
    WakesAre(r, e, r', WakeUp(r, q, time));
  }

  lemma WakesOfFlush(r: Registry, q: TaskQueueId, single: bool, now: TimePoint, fired: seq<DelayedTask>, r': Registry)
    requires Next(r, Flush(q, single, now, fired), r')
    ensures WakesExactly(r, Flush(q, single, now, fired), r')
  {
    if Visible(r, q) == multiset{} {
      WakesAre(r, Flush(q, single, now, fired), r', []);
    } else {
      FlushKeepsQueue(r, q, single, now, fired, r');
      WakesAtFlush(r, Flush(q, single, now, fired), r', q);
    }
  }

  lemma WakesOfMerge(r: Registry, owner: TaskQueueId, sub: TaskQueueId, ok: bool, r': Registry)
    requires Paired(r) && Next(r, Merge(owner, sub, ok), r')
    ensures WakesExactly(r, Merge(owner, sub, ok), r')
  {
    if owner == sub || r.entries[owner].ownerOf == sub || !ok {
      WakesAre(r, Merge(owner, sub, ok), r', []);
    } else {
      WakesAre(r, Merge(owner, sub, ok), r', WakeIfPending(r.(entries := r'.entries), owner));
    }
  }

  /** The wake of one loop of a pair that has been split. */
  ghost predicate WokenAlone(r: Registry, q: TaskQueueId, w: Wake) {
    && q in r.entries && w.queue == q && r.entries[q].wakeable
    && Visible(r, q) != multiset{} && w.time == EarliestTime(Visible(r, q))
  }

  lemma WakesOfPending(r: Registry, r': Registry, q: TaskQueueId)
    requires q in r.entries && r'.entries == r.entries
    ensures |WakeIfPending(r, q)| <= 1
    ensures forall w: Wake :: w in WakeIfPending(r, q) <==> WokenAlone(r', q, w)
  {
    assert Visible(r', q) == Visible(r, q);
  }

  lemma WakesOfTwo(e: Event, a: seq<Wake>, b: seq<Wake>, sub: TaskQueueId)
    requires e.Unmerge? && sub != e.owner && |a| <= 1 && |b| <= 1
    requires (forall w: Wake | w in a :: w.queue == e.owner) && (forall w: Wake | w in b :: w.queue == sub)
    ensures OneEach(e, a + b)
  {
    assert forall i | 0 <= i < |a| :: a[i] in a;
    assert forall i | 0 <= i < |b| :: b[i] in b;
  }

  lemma UnmergeWakes(r: Registry, owner: TaskQueueId, r': Registry)
    requires Paired(r) && Next(r, Unmerge(owner, true), r')
    ensures var sub, split := r.entries[owner].ownerOf, r.(entries := r'.entries);
            && owner in r'.entries && sub in r'.entries && sub != owner
            && r'.wakes == r.wakes + (WakeIfPending(split, owner) + WakeIfPending(split, sub))
  {
    assert PairedAt(r, owner);
  }

  lemma WakesAtUnmerge(r: Registry, owner: TaskQueueId, sub: TaskQueueId, r': Registry, a: seq<Wake>, b: seq<Wake>)
    requires owner in r.entries && sub == r.entries[owner].ownerOf != owner && owner in r'.entries && sub in r'.entries
    requires r'.wakes == r.wakes + (a + b) && |a| <= 1 && |b| <= 1
    requires forall w: Wake :: w in a <==> WokenAlone(r', owner, w)
    requires forall w: Wake :: w in b <==> WokenAlone(r', sub, w)
    ensures WakesExactly(r, Unmerge(owner, true), r')
  {
    var e := Unmerge(owner, true);
    WakesOfTwo(e, a, b, sub);
    forall w: Wake ensures w in a + b <==> Woken(r, e, r', w) {
      assert w in a + b <==> WokenAlone(r', owner, w) || WokenAlone(r', sub, w);
    }
    WakesAre(r, e, r', a + b);
  }

  lemma WakesOfUnmerge(r: Registry, owner: TaskQueueId, ok: bool, r': Registry)
    requires Paired(r) && Next(r, Unmerge(owner, ok), r')
    ensures WakesExactly(r, Unmerge(owner, ok), r')
  {
    if !ok {
      WakesAre(r, Unmerge(owner, ok), r', []);
    } else {
      UnmergeWakes(r, owner, r');
      var sub, split := r.entries[owner].ownerOf, r.(entries := r'.entries);
      WakesOfPending(split, r', owner);
      WakesOfPending(split, r', sub);
      WakesAtUnmerge(r, owner, sub, r', WakeIfPending(split, owner), WakeIfPending(split, sub));
    }
  }

  // ---- Over whole runs ----

  lemma NextIdSteps(r: Registry, e: Event, r': Registry)
    requires Next(r, e, r')
    ensures r'.nextId == r.nextId + if e.Create? then 1 else 0
  {}

  lemma {:induction false} NextIdGrows(hs: seq<History>, es: seq<Event>, i: nat, j: nat)
    requires IsRun(hs, es) && i <= j < |hs|
    ensures hs[i].reg.nextId <= hs[j].reg.nextId
    decreases j
  {
    if i == j {
    } else {
      NextIdGrows(hs, es, i, j - 1);
      assert Step(hs[j - 1], es[j - 1], hs[j]);
      NextIdSteps(hs[j - 1].reg, es[j - 1], hs[j].reg);
    }
  }

  /** No id is handed out twice, not even after its queue has been disposed of. */
  lemma IdsNeverReused(hs: seq<History>, es: seq<Event>, i: nat, j: nat)
    requires IsRun(hs, es) && i < j < |es| && es[i].Create? && es[j].Create?
    ensures es[i].id != es[j].id
  {
    assert Step(hs[i], es[i], hs[i + 1]) && Step(hs[j], es[j], hs[j + 1]);
    NextIdGrows(hs, es, i + 1, j);
  }

  ghost predicate WasSet(es: seq<Event>, n: nat, q: TaskQueueId)
    requires n <= |es|
  {
    exists i | 0 <= i < n :: es[i] == SetWakeable(q)
  }

  lemma PutKeepsWakeable(m: map<TaskQueueId, Entry>, q: TaskQueueId, t: multiset<DelayedTask>,
                         p: TaskQueueId, u: multiset<DelayedTask>, k: TaskQueueId)
    ensures var m' := PutTasks(PutTasks(m, q, t), p, u);
            (k in m' <==> k in m) && (k in m ==> m'[k].wakeable == m[k].wakeable)
  {}

  lemma LinkKeepsWakeable(m: map<TaskQueueId, Entry>, owner: TaskQueueId, sub: TaskQueueId, k: TaskQueueId)
    requires owner in m && sub in m
    ensures k in Link(m, owner, sub) <==> k in m
    ensures k in Unlink(m, owner, sub) <==> k in m
    ensures k in m ==> Link(m, owner, sub)[k].wakeable == m[k].wakeable == Unlink(m, owner, sub)[k].wakeable
  {}

  /** What one step makes of a queue's wakeable. */
  lemma WakeableSteps(r: Registry, e: Event, r': Registry, q: TaskQueueId)
    requires Next(r, e, r') && q in r'.entries && e != Create(q)
    requires UNMERGED !in r.entries
    ensures q in r.entries && (r'.entries[q].wakeable <==> r.entries[q].wakeable || e == SetWakeable(q))
  {
    match e
    case DisposeTasks(k) => PutKeepsWakeable(r.entries, k, multiset{}, r.entries[k].ownerOf, multiset{}, q);
    case Register(k, _, _) => PutKeepsWakeable(r.entries, k, TasksOf(r', k), UNMERGED, multiset{}, q);
    case Flush(k, _, _, _) =>
      var p := r.entries[k].ownerOf;
      PutKeepsWakeable(r.entries, k, TasksOf(r', k), p, TasksOf(r', p), q);
    case Merge(owner, sub, _) => if r' != r { LinkKeepsWakeable(r.entries, owner, sub, q); }
    case Unmerge(owner, _) => if r' != r { LinkKeepsWakeable(r.entries, owner, r.entries[owner].ownerOf, q); }
    case _ =>
  }

  lemma RunAt(hs: seq<History>, es: seq<Event>, n: nat)
    requires IsRun(hs, es) && n < |es|
    ensures Paired(hs[n].reg) && Next(hs[n].reg, es[n], hs[n + 1].reg)
  {
    RunInv(hs, es, n);
    assert Step(hs[n], es[n], hs[n + 1]);
  }

  lemma SetIsLive(hs: seq<History>, es: seq<Event>, i: nat, n: nat, q: TaskQueueId)
    requires IsRun(hs, es) && i < n < |hs| && es[i] == SetWakeable(q)
    ensures q.value < hs[n].reg.nextId
  {
    RunAt(hs, es, i);
    assert PairedAt(hs[i].reg, q);
    NextIdGrows(hs, es, i, n);
  }

  lemma NewIsNotSet(hs: seq<History>, es: seq<Event>, n: nat, q: TaskQueueId)
    requires IsRun(hs, es) && n < |es| && es[n] == Create(q)
    ensures !WasSet(es, n, q) && q in hs[n + 1].reg.entries && !hs[n + 1].reg.entries[q].wakeable
  {
    RunAt(hs, es, n);
    assert q.value == hs[n].reg.nextId;
    if i :| 0 <= i < n && es[i] == SetWakeable(q) {
      SetIsLive(hs, es, i, n, q);
    }
  }

  lemma WasSetSteps(es: seq<Event>, n: nat, q: TaskQueueId)
    requires n < |es|
    ensures WasSet(es, n + 1, q) <==> WasSet(es, n, q) || es[n] == SetWakeable(q)
  {}

  lemma WakeableAt(hs: seq<History>, es: seq<Event>, n: nat, q: TaskQueueId)
    requires IsRun(hs, es) && n < |es| && q in hs[n + 1].reg.entries
    ensures es[n] == Create(q) ==> !hs[n + 1].reg.entries[q].wakeable && !WasSet(es, n, q)
    ensures es[n] != Create(q) ==> q in hs[n].reg.entries
    ensures es[n] != Create(q) ==>
              (hs[n + 1].reg.entries[q].wakeable <==> hs[n].reg.entries[q].wakeable || es[n] == SetWakeable(q))
  {
    if es[n] == Create(q) {
      NewIsNotSet(hs, es, n, q);
    } else {
      RunAt(hs, es, n);
      assert UNMERGED !in hs[n].reg.entries;
      WakeableSteps(hs[n].reg, es[n], hs[n + 1].reg, q);
    }
  }

  lemma NobodyIsLive(hs: seq<History>, es: seq<Event>, q: TaskQueueId)
    requires IsRun(hs, es)
    ensures q !in hs[0].reg.entries
  {}

  lemma WakeableNext(hs: seq<History>, es: seq<Event>, n: nat, q: TaskQueueId)
    requires IsRun(hs, es) && n < |es| && q in hs[n + 1].reg.entries
    requires q in hs[n].reg.entries ==> (hs[n].reg.entries[q].wakeable <==> WasSet(es, n, q))
    ensures hs[n + 1].reg.entries[q].wakeable <==> WasSet(es, n + 1, q)
  {
    WakeableAt(hs, es, n, q);
    WasSetSteps(es, n, q);
  }

  /** A live queue has a wakeable exactly if one has been set. */
  lemma {:induction false} WakeableIffSet(hs: seq<History>, es: seq<Event>, n: nat, q: TaskQueueId)
    requires IsRun(hs, es) && n < |hs| && q in hs[n].reg.entries
    ensures hs[n].reg.entries[q].wakeable <==> WasSet(es, n, q)
  {
    NobodyIsLive(hs, es, q);
    if n > 0 {
      if q in hs[n - 1].reg.entries { WakeableIffSet(hs, es, n - 1, q); }
      WakeableNext(hs, es, n - 1, q);
    }
  }
}
