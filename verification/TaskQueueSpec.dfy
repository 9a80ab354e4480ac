/** `fml::MessageLoopTaskQueues` as a state machine: one atomic step per public method,
    and what every run of it keeps. */
module TaskQueueSpec {
  import opened DelayedTasks

  /** The value counts the queues created; `IdOf` is what comparisons see of it. */
  datatype TaskQueueId = TaskQueueId(value: int)

  const UNMERGED := TaskQueueId(-1)

  /** Every comparison of ids converts their `size_t` to `int`; `_kUnmerged` converts to -1. */
  function IdOf(n: nat): TaskQueueId { TaskQueueId(WrapInt(n)) }

  /** Ids compare equal exactly a multiple of 2^32 creations apart, and the last of every such round
      compares equal to `_kUnmerged`: ids are distinct and usable over the first 2^32 - 1 creations. */
  lemma IdsCollideIff(m: nat, n: nat)
    ensures IdOf(m) == IdOf(n) <==> m % TWO32 == n % TWO32
    ensures IdOf(n) == UNMERGED <==> n % TWO32 == TWO32 - 1
    ensures m < n < TWO32 - 1 ==> IdOf(m) != IdOf(n) && IdOf(n) != UNMERGED
  {}

  datatype Entry = Entry(wakeable: bool, tasks: multiset<DelayedTask>, ownerOf: TaskQueueId, subsumedBy: TaskQueueId)

  /** A call of `Wakeable::WakeUp` on the loop of a queue. */
  datatype Wake = Wake(queue: TaskQueueId, time: TimePoint)

  datatype Registry = Registry(entries: map<TaskQueueId, Entry>, nextId: nat, order: int, wakes: seq<Wake>)

  datatype Event =
    | Create(id: TaskQueueId)
    | Dispose(q: TaskQueueId)
    | DisposeTasks(q: TaskQueueId)
    | Register(q: TaskQueueId, task: Closure, time: TimePoint)
    | Flush(q: TaskQueueId, single: bool, now: TimePoint, fired: seq<DelayedTask>)
    | SetWakeable(q: TaskQueueId)
    | Merge(owner: TaskQueueId, sub: TaskQueueId, ok: bool)
    | Unmerge(owner: TaskQueueId, ok: bool)

  const NEW_ENTRY := Entry(false, multiset{}, UNMERGED, UNMERGED)
  const EMPTY := Registry(map[], 0, 0, [])

  /** `order_++` on a 32-bit `atomic_int`. */
  function NextOrder(v: int): int { if v == 0x7FFF_FFFF then -0x8000_0000 else v + 1 }

  // ---- Views of a registry ----

  function TasksOf(r: Registry, q: TaskQueueId): multiset<DelayedTask> {
    if q in r.entries then r.entries[q].tasks else multiset{}
  }

  /** Queue `q` and the queue it owns, if any. */
  function Group(r: Registry, q: TaskQueueId): set<TaskQueueId>
    requires q in r.entries
  {
    if r.entries[q].ownerOf == UNMERGED then {q} else {q, r.entries[q].ownerOf}
  }

  function Partner(r: Registry, q: TaskQueueId): TaskQueueId
    requires q in r.entries
  {
    if r.entries[q].subsumedBy != UNMERGED then r.entries[q].subsumedBy else r.entries[q].ownerOf
  }

  /** The loop that runs the tasks of queue `q`. */
  function LoopOf(r: Registry, q: TaskQueueId): TaskQueueId
    requires q in r.entries
  {
    if r.entries[q].subsumedBy != UNMERGED then r.entries[q].subsumedBy else q
  }

  /** The tasks the loop of `q` may run: none while subsumed, both heaps while owning. */
  function Visible(r: Registry, q: TaskQueueId): multiset<DelayedTask>
    requires q in r.entries
  {
    if r.entries[q].subsumedBy != UNMERGED then multiset{}
    else r.entries[q].tasks + TasksOf(r, r.entries[q].ownerOf)
  }

  function PutTasks(m: map<TaskQueueId, Entry>, q: TaskQueueId, tasks: multiset<DelayedTask>): map<TaskQueueId, Entry> {
    if q in m then m[q := m[q].(tasks := tasks)] else m
  }

  function WakeUp(r: Registry, q: TaskQueueId, time: TimePoint): seq<Wake> {
    if q in r.entries && r.entries[q].wakeable then [Wake(q, time)] else []
  }

  ghost function WakeIfPending(r: Registry, q: TaskQueueId): seq<Wake>
    requires q in r.entries
  {
    if Visible(r, q) == multiset{} then [] else WakeUp(r, q, EarliestTime(Visible(r, q)))
  }

  /** Queues `owner` and `sub` linked as owner and subsumed. */
  function Link(m: map<TaskQueueId, Entry>, owner: TaskQueueId, sub: TaskQueueId): map<TaskQueueId, Entry>
    requires owner in m && sub in m
  {
    m[owner := m[owner].(ownerOf := sub)][sub := m[sub].(subsumedBy := owner)]
  }

  function Unlink(m: map<TaskQueueId, Entry>, owner: TaskQueueId, sub: TaskQueueId): map<TaskQueueId, Entry>
    requires owner in m && sub in m
  {
    m[owner := m[owner].(ownerOf := UNMERGED)][sub := m[sub].(subsumedBy := UNMERGED)]
  }

  predicate Mergeable(r: Registry, owner: TaskQueueId, sub: TaskQueueId)
    requires owner in r.entries && sub in r.entries
  {
    && r.entries[owner].ownerOf == UNMERGED && r.entries[owner].subsumedBy == UNMERGED
    && r.entries[sub].ownerOf == UNMERGED && r.entries[sub].subsumedBy == UNMERGED
  }

  // ---- Steps ----

  /** Every public method as one step from `r` to `r'`. */
  ghost predicate Next(r: Registry, e: Event, r': Registry) {
    match e
    case Create(id) => CreateStep(r, id, r')
    case Dispose(q) => DisposeStep(r, q, r')
    case DisposeTasks(q) => DisposeTasksStep(r, q, r')
    case Register(q, c, time) => RegisterStep(r, q, c, time, r')
    case Flush(q, single, now, fired) =>
      && q in r.entries
      && (if Visible(r, q) == multiset{} then fired == [] && r' == r else FlushStep(r, q, single, now, fired, r'))
    case SetWakeable(q) => SetWakeableStep(r, q, r')
    case Merge(owner, sub, ok) => MergeStep(r, owner, sub, ok, r')
    case Unmerge(owner, ok) => UnmergeStep(r, owner, ok, r')
  }

  ghost predicate CreateStep(r: Registry, id: TaskQueueId, r': Registry) {
    && id == TaskQueueId(r.nextId)
    && r' == r.(entries := r.entries[id := NEW_ENTRY], nextId := r.nextId + 1)
  }

  /** An owner takes the queue it owns with it. */
  ghost predicate DisposeStep(r: Registry, q: TaskQueueId, r': Registry) {
    && q in r.entries && r.entries[q].subsumedBy == UNMERGED
    && r' == r.(entries := r.entries - Group(r, q))
  }

  ghost predicate DisposeTasksStep(r: Registry, q: TaskQueueId, r': Registry) {
    && q in r.entries && r.entries[q].subsumedBy == UNMERGED
    && r' == r.(entries := PutTasks(PutTasks(r.entries, q, multiset{}), r.entries[q].ownerOf, multiset{}))
  }

  /** The task goes to the heap of the queue it names; the loop that serves that queue is
      woken for the top of that one heap. */
  ghost predicate RegisterStep(r: Registry, q: TaskQueueId, c: Closure, time: TimePoint, r': Registry) {
    && q in r.entries && -0x8000_0000 <= r.order < 0x8000_0000
    && var own := r.entries[q].tasks + multiset{DelayedTask(ToSize(r.order), c, time)};
    r' == r.(entries := PutTasks(r.entries, q, own), order := NextOrder(r.order),
             wakes := r.wakes + WakeUp(r, LoopOf(r, q), EarliestTime(own)))
  }

  ghost predicate SetWakeableStep(r: Registry, q: TaskQueueId, r': Registry) {
    && q in r.entries && !r.entries[q].wakeable
    && r' == r.(entries := r.entries[q := r.entries[q].(wakeable := true)])
  }

  /** A dequeue on a queue that is not subsumed: its own heap and the heap of the queue it
      owns are flushed together, and the loop is told the earliest time left. */
  ghost predicate FlushStep(r: Registry, q: TaskQueueId, single: bool, now: TimePoint, fired: seq<DelayedTask>,
                            r': Registry)
    requires q in r.entries
  {
    var p := r.entries[q].ownerOf;
    && Flushed(TasksOf(r, q), TasksOf(r, p), single, now, fired, TasksOf(r', q), TasksOf(r', p))
    && q in r'.entries
    && r' == r.(entries := PutTasks(PutTasks(r.entries, q, TasksOf(r', q)), p, TasksOf(r', p)),
                wakes := r.wakes + WakeUp(r, q, EarliestTime(Visible(r', q))))
  }

  ghost predicate MergeStep(r: Registry, owner: TaskQueueId, sub: TaskQueueId, ok: bool, r': Registry) {
    if owner == sub then ok && r' == r
    else
      && owner in r.entries && sub in r.entries
      && if r.entries[owner].ownerOf == sub then ok && r' == r
         else if !Mergeable(r, owner, sub) then !ok && r' == r
         else
           var linked := r.(entries := Link(r.entries, owner, sub));
           ok && r' == linked.(wakes := r.wakes + WakeIfPending(linked, owner))
  }

  ghost predicate UnmergeStep(r: Registry, owner: TaskQueueId, ok: bool, r': Registry) {
    && owner in r.entries
    && var sub := r.entries[owner].ownerOf;
    if sub == UNMERGED then !ok && r' == r
    else
      && sub in r.entries
      && var split := r.(entries := Unlink(r.entries, owner, sub));
      ok && r' == split.(wakes := r.wakes + WakeIfPending(split, owner) + WakeIfPending(split, sub))
  }

  // ---- Pairing ----

  ghost predicate PairedAt(r: Registry, q: TaskQueueId)
    requires q in r.entries
  {
    var e := r.entries[q];
    && 0 <= q.value < r.nextId
    && (e.ownerOf == UNMERGED || e.subsumedBy == UNMERGED)
    && (e.ownerOf != UNMERGED ==>
          e.ownerOf in r.entries && e.ownerOf != q && r.entries[e.ownerOf].subsumedBy == q)
    && (e.subsumedBy != UNMERGED ==>
          e.subsumedBy in r.entries && e.subsumedBy != q && r.entries[e.subsumedBy].ownerOf == q)
  }

  /** A queue has at most one partner, and is its owner or subsumed by it. */
  ghost predicate Paired(r: Registry) {
    UNMERGED !in r.entries && forall q | q in r.entries :: PairedAt(r, q)
  }

  /** Steps that leave `ownerOf` and `subsumedBy` of every queue alone. */
  ghost predicate SameLinks(m: map<TaskQueueId, Entry>, m': map<TaskQueueId, Entry>) {
    && m'.Keys == m.Keys
    && forall q | q in m :: m'[q].ownerOf == m[q].ownerOf && m'[q].subsumedBy == m[q].subsumedBy
  }

  lemma PutKeepsLinks(m: map<TaskQueueId, Entry>, q: TaskQueueId, t: multiset<DelayedTask>,
                      p: TaskQueueId, u: multiset<DelayedTask>)
    ensures SameLinks(m, PutTasks(m, q, t))
    ensures SameLinks(m, PutTasks(PutTasks(m, q, t), p, u))
  {
  }

  lemma SameLinksKeepsPairing(r: Registry, r': Registry)
    requires Paired(r) && SameLinks(r.entries, r'.entries) && r'.nextId == r.nextId
    ensures Paired(r')
  {}

  lemma LinkKeepsPairing(r: Registry, owner: TaskQueueId, sub: TaskQueueId, r': Registry)
    requires Paired(r) && owner in r.entries && sub in r.entries && owner != sub && Mergeable(r, owner, sub)
    requires r'.entries == Link(r.entries, owner, sub) && r'.nextId == r.nextId
    ensures Paired(r')
  {
    forall q | q in r'.entries ensures PairedAt(r', q) {
      assert PairedAt(r, q) && PairedAt(r, owner) && PairedAt(r, sub);
    }
  }

  lemma UnlinkKeepsPairing(r: Registry, owner: TaskQueueId, sub: TaskQueueId, r': Registry)
    requires Paired(r) && owner in r.entries && sub in r.entries && r.entries[owner].ownerOf == sub != UNMERGED
    requires r'.entries == Unlink(r.entries, owner, sub) && r'.nextId == r.nextId
    ensures Paired(r')
  {
    forall q | q in r'.entries ensures PairedAt(r', q) {
      assert PairedAt(r, q) && PairedAt(r, owner) && PairedAt(r, sub);
    }
  }

  lemma RemovalKeepsPairing(r: Registry, q: TaskQueueId, r': Registry)
    requires Paired(r) && q in r.entries && r.entries[q].subsumedBy == UNMERGED
    requires r'.entries == r.entries - Group(r, q) && r'.nextId == r.nextId
    ensures Paired(r')
  {
    forall k | k in r'.entries ensures PairedAt(r', k) {
      assert PairedAt(r, q) && PairedAt(r, k);
    }
  }

  lemma NextKeepsPairing(r: Registry, e: Event, r': Registry)
    requires Paired(r) && Next(r, e, r')
    ensures Paired(r')
  {
    match e
    case Create(id) =>
      forall q | q in r'.entries ensures PairedAt(r', q) {
        if q in r.entries { assert PairedAt(r, q); }
      }
    case Dispose(q) => RemovalKeepsPairing(r, q, r');
    case Merge(owner, sub, ok) => if r' != r { LinkKeepsPairing(r, owner, sub, r'); }
    case Unmerge(owner, ok) => if r' != r { UnlinkKeepsPairing(r, owner, r.entries[owner].ownerOf, r'); }
    case DisposeTasks(q) =>
      PutKeepsLinks(r.entries, q, multiset{}, r.entries[q].ownerOf, multiset{});
      SameLinksKeepsPairing(r, r');
    case Register(q, c, time) =>
      PutKeepsLinks(r.entries, q, TasksOf(r', q), q, multiset{});
      SameLinksKeepsPairing(r, r');
    case Flush(q, single, now, fired) =>
      var p := r.entries[q].ownerOf;
      PutKeepsLinks(r.entries, q, TasksOf(r', q), p, TasksOf(r', p));
      SameLinksKeepsPairing(r, r');
    case SetWakeable(q) =>
      SameLinksKeepsPairing(r, r');
  }

  /** Merged queues form disjoint pairs: no chains, no queue both owner and subsumed. */
  lemma PairsAreDisjoint(r: Registry, a: TaskQueueId, b: TaskQueueId)
    requires Paired(r) && a in r.entries && b in r.entries
    ensures r.entries[a].ownerOf == b <==> r.entries[b].subsumedBy == a
    ensures r.entries[a].ownerOf == b ==>
              a != b && r.entries[a].subsumedBy == UNMERGED && r.entries[b].ownerOf == UNMERGED
    ensures r.entries[a].ownerOf != UNMERGED && r.entries[a].ownerOf == r.entries[b].ownerOf ==> a == b
    ensures r.entries[a].subsumedBy != UNMERGED && r.entries[a].subsumedBy == r.entries[b].subsumedBy ==> a == b
  {}

  predicate Owns(r: Registry, owner: TaskQueueId, sub: TaskQueueId)
    requires owner in r.entries
  {
    sub == r.entries[owner].ownerOf || owner == sub
  }

  /** `TaskRunner::RunsTasksOnCurrentThread` for the runner of `loop` on the thread of `current`. */
  predicate SameThread(r: Registry, current: TaskQueueId, loop: TaskQueueId)
    requires current in r.entries && loop in r.entries
  {
    current == loop || Owns(r, current, loop) || Owns(r, loop, current)
  }

  /** Sharing a thread is an equivalence on live queues, with classes of at most two. */
  lemma SameThreadEquivalence(r: Registry, a: TaskQueueId, b: TaskQueueId, c: TaskQueueId)
    requires Paired(r) && a in r.entries && b in r.entries && c in r.entries
    ensures SameThread(r, a, a)
    ensures SameThread(r, a, b) <==> SameThread(r, b, a)
    ensures SameThread(r, a, b) && SameThread(r, b, c) ==> SameThread(r, a, c)
    ensures SameThread(r, a, b) && SameThread(r, b, c) ==> a == b || b == c || a == c
    ensures SameThread(r, a, b) <==> LoopOf(r, a) == LoopOf(r, b)
  {}

  // ---- Totals over all queues ----

  ghost function AllTasks(m: map<TaskQueueId, Entry>): multiset<DelayedTask>
    decreases |m|
  {
    if |m| == 0 then multiset{}
    else
      assert m.Keys != {};
      var k :| k in m.Keys;
      m[k].tasks + AllTasks(m - {k})
  }

  lemma {:induction false} AllTasksRemove(m: map<TaskQueueId, Entry>, k: TaskQueueId)
    requires k in m
    ensures AllTasks(m) == m[k].tasks + AllTasks(m - {k})
    decreases |m|
  {
    var j :| j in m && AllTasks(m) == m[j].tasks + AllTasks(m - {j});
    if j != k {
      var rest := m - {j} - {k};
      assert m - {k} - {j} == rest;
      AllTasksRemove(m - {j}, k);
      AllTasksRemove(m - {k}, j);
      Swap(m[j].tasks, m[k].tasks, AllTasks(rest));
    }
  }

  lemma Swap<T>(a: multiset<T>, b: multiset<T>, c: multiset<T>)
    ensures a + (b + c) == b + (a + c)
  {
  }

  lemma AllTasksAdd(m: map<TaskQueueId, Entry>, k: TaskQueueId, e: Entry)
    requires k !in m
    ensures AllTasks(m[k := e]) == AllTasks(m) + e.tasks
  {
    AllTasksRemove(m[k := e], k);
    assert m[k := e] - {k} == m;
  }

  lemma AllTasksPut(m: map<TaskQueueId, Entry>, k: TaskQueueId, e: Entry)
    requires k in m
    ensures AllTasks(m[k := e]) + m[k].tasks == AllTasks(m) + e.tasks
  {
    var rest := m - {k};
    AllTasksAdd(rest, k, e);
    AllTasksAdd(rest, k, m[k]);
    assert rest[k := e] == m[k := e] && rest[k := m[k]] == m;
  }

  lemma {:induction false} AllTasksContains(m: map<TaskQueueId, Entry>, t: DelayedTask)
    ensures t in AllTasks(m) <==> exists k :: k in m && t in m[k].tasks
    decreases |m|
  {
    if |m| == 0 {
    } else {
      var j :| j in m.Keys && AllTasks(m) == m[j].tasks + AllTasks(m - {j});
      AllTasksContains(m - {j}, t);
      if t in AllTasks(m - {j}) {
        var k :| k in m - {j} && t in (m - {j})[k].tasks;
        assert k in m && t in m[k].tasks;
      }
      if k :| k in m && t in m[k].tasks {
        if k != j { assert k in m - {j} && t in (m - {j})[k].tasks; }
      }
    }
  }

  /** The queues of `m` with what their loops see in place of their own tasks. */
  ghost function Seen(r: Registry, m: map<TaskQueueId, Entry>): map<TaskQueueId, Entry>
    requires m.Keys <= r.entries.Keys
  {
    map k | k in m :: m[k].(tasks := Visible(r, k))
  }

  lemma SeenMinus(r: Registry, m: map<TaskQueueId, Entry>, q: TaskQueueId)
    requires m.Keys <= r.entries.Keys && q in m
    ensures Seen(r, m) - {q} == Seen(r, m - {q})
  {
  }

  lemma SeenRemove(r: Registry, m: map<TaskQueueId, Entry>, q: TaskQueueId)
    requires m.Keys <= r.entries.Keys && q in m
    ensures AllTasks(Seen(r, m)) == Visible(r, q) + AllTasks(Seen(r, m - {q}))
  {
    var s, s1 := Seen(r, m), Seen(r, m - {q});
    SeenMinus(r, m, q);
    assert s[q].tasks == Visible(r, q);
    AllTasksRemove(s, q);
  }

  ghost predicate ClosedUnderPartner(r: Registry, m: map<TaskQueueId, Entry>) {
    forall k | k in m :: k in r.entries && m[k] == r.entries[k] && (Partner(r, k) == UNMERGED || Partner(r, k) in m)
  }

  lemma ClosedRemove(r: Registry, m: map<TaskQueueId, Entry>, q: TaskQueueId)
    requires Paired(r) && ClosedUnderPartner(r, m) && q in m
    ensures ClosedUnderPartner(r, m - {q, Partner(r, q)})
  {}

  lemma SeenPair(r: Registry, q: TaskQueueId)
    requires Paired(r) && q in r.entries
    ensures Partner(r, q) == UNMERGED ==> Visible(r, q) == r.entries[q].tasks
    ensures Partner(r, q) != UNMERGED ==>
              && Partner(r, q) in r.entries && Partner(r, q) != q
              && Visible(r, q) + Visible(r, Partner(r, q)) == r.entries[q].tasks + r.entries[Partner(r, q)].tasks
  {}

  lemma AllTasksRemoveTwo(m: map<TaskQueueId, Entry>, q: TaskQueueId, p: TaskQueueId)
    requires q in m && p in m && p != q
    ensures AllTasks(m) == m[q].tasks + m[p].tasks + AllTasks(m - {q, p})
  {
    assert m - {q} - {p} == m - {q, p};
    AllTasksRemove(m, q);
    AllTasksRemove(m - {q}, p);
  }

  lemma SeenBoth(r: Registry, m: map<TaskQueueId, Entry>, q: TaskQueueId, p: TaskQueueId)
    requires m.Keys <= r.entries.Keys && q in m && p in m && p != q
    ensures AllTasks(Seen(r, m)) == Visible(r, q) + Visible(r, p) + AllTasks(Seen(r, m - {q, p}))
  {
    var s := Seen(r, m);
    assert s - {q, p} == Seen(r, m - {q, p});
    assert s[q].tasks == Visible(r, q) && s[p].tasks == Visible(r, p);
    AllTasksRemoveTwo(s, q, p);
  }

  lemma SeenAlone(r: Registry, m: map<TaskQueueId, Entry>, q: TaskQueueId)
    requires m.Keys <= r.entries.Keys && q in m && Visible(r, q) == m[q].tasks
    requires AllTasks(Seen(r, m - {q})) == AllTasks(m - {q})
    ensures AllTasks(Seen(r, m)) == AllTasks(m)
  {
    SeenRemove(r, m, q);
    AllTasksRemove(m, q);
  }

  lemma SeenTogether(r: Registry, m: map<TaskQueueId, Entry>, q: TaskQueueId, p: TaskQueueId)
    requires m.Keys <= r.entries.Keys && q in m && p in m && p != q
    requires Visible(r, q) + Visible(r, p) == m[q].tasks + m[p].tasks
    requires AllTasks(Seen(r, m - {q, p})) == AllTasks(m - {q, p})
    ensures AllTasks(Seen(r, m)) == AllTasks(m)
  {
    SeenBoth(r, m, q, p);
    AllTasksRemoveTwo(m, q, p);
  }

  lemma SeenGroup(r: Registry, m: map<TaskQueueId, Entry>, q: TaskQueueId)
    requires Paired(r) && ClosedUnderPartner(r, m) && m.Keys <= r.entries.Keys && q in m
    requires AllTasks(Seen(r, m - {q, Partner(r, q)})) == AllTasks(m - {q, Partner(r, q)})
    ensures AllTasks(Seen(r, m)) == AllTasks(m)
  {
    var p := Partner(r, q);
    SeenPair(r, q);
    if p == UNMERGED {
      assert p !in m && m - {q} == m - {q, p};
      SeenAlone(r, m, q);
    } else {
      SeenTogether(r, m, q, p);
    }
  }

  lemma {:induction false} SeenTotal(r: Registry, m: map<TaskQueueId, Entry>)
    requires Paired(r) && ClosedUnderPartner(r, m)
    ensures m.Keys <= r.entries.Keys
    ensures AllTasks(Seen(r, m)) == AllTasks(m)
    decreases |m|
  {
    if |m| == 0 {
    } else {
      assert m.Keys != {};
      var q :| q in m.Keys;
      var m' := m - {q, Partner(r, q)};
      assert m'.Keys <= m.Keys - {q} < m.Keys;
      assert |m'.Keys| <= |m.Keys - {q}|  by { SubsetSize(m'.Keys, m.Keys - {q}); }
      ClosedRemove(r, m, q);
      SeenTotal(r, m');
      SeenGroup(r, m, q);
    }
  }

  lemma {:induction false} SubsetSize<T>(a: set<T>, b: set<T>)
    requires a <= b
    ensures |a| <= |b|
    decreases b
  {
    if x :| x in a { SubsetSize(a - {x}, b - {x}); }
  }

  /** Sum of the heap sizes of a set of queues. */
  ghost function Count(m: map<TaskQueueId, Entry>): nat
    decreases |m|
  {
    if |m| == 0 then 0
    else
      assert m.Keys != {};
      var k :| k in m.Keys;
      |m[k].tasks| + Count(m - {k})
  }

  lemma {:induction false} CountIsSize(m: map<TaskQueueId, Entry>)
    ensures Count(m) == |AllTasks(m)|
    decreases |m|
  {
    if |m| == 0 {
    } else {
      var k :| k in m.Keys && Count(m) == |m[k].tasks| + Count(m - {k});
      AllTasksRemove(m, k);
      CountIsSize(m - {k});
    }
  }

  /** Every pending task is seen by exactly one loop, so the counts that
      `GetNumPendingTasks` gives over all live queues add up to the total pending. */
  lemma PendingCountsTotal(r: Registry)
    requires Paired(r)
    ensures AllTasks(Seen(r, r.entries)) == AllTasks(r.entries)
    ensures Count(Seen(r, r.entries)) == |AllTasks(r.entries)|
  {
    forall k | k in r.entries ensures Partner(r, k) == UNMERGED || Partner(r, k) in r.entries {
      assert PairedAt(r, k);
    }
    SeenTotal(r, r.entries);
    CountIsSize(Seen(r, r.entries));
  }
}
