/** `fml::ConcurrentMessageLoop`: a mutex-protected queue, a condition variable and N
    workers, as atomic steps of any interleaving. */
module WorkerPool {
  import opened Wrappers

  /** A posted closure. */
  datatype Task = Task(id: nat)

  /** `Ready`: about to take the lock and evaluate the wait predicate (just started, woken,
      spuriously woken, or done with a task). `Blocked`: asleep in `wait`. */
  datatype Worker = Ready | Blocked | Running(task: Task) | Exited

  /** `owed` counts `PostTask` calls that have unlocked the mutex but not yet notified. The
      last four fields record the past: every non-null post, posts run by their caller,
      tasks taken by workers in order, and tasks that workers have finished. */
  datatype Pool = Pool(tasks: seq<Task>, shutdown: bool, workers: seq<Worker>, owed: nat,
                       posted: seq<Task>, inlined: seq<Task>, taken: seq<Task>, finished: multiset<Task>)

  datatype Step =
    | Post(task: Task)
    | PostNull
    | NotifyNobody           // an owed `notify_one` that finds no worker asleep
    | NotifyOne(w: nat)
    | SpuriousWake(w: nat)
    | Check(w: nat)          // lock, evaluate the predicate, then take a task, exit or sleep
    | Finish(w: nat)
    | Terminate              // `shutdown_ = true; notify_all()` under the lock

  function Initial(workerCount: nat): Pool {
    var n := if workerCount < 1 then 1 else workerCount;
    Pool([], false, seq(n, _ => Ready), 0, [], [], [], multiset{})
  }

  predicate Enabled(p: Pool, s: Step) {
    match s
    case Post(_) => true
    case PostNull => true
    case NotifyNobody => p.owed > 0 && forall i | 0 <= i < |p.workers| :: p.workers[i] != Blocked
    case NotifyOne(w) => p.owed > 0 && w < |p.workers| && p.workers[w].Blocked?
    case SpuriousWake(w) => w < |p.workers| && p.workers[w].Blocked?
    case Check(w) => w < |p.workers| && p.workers[w].Ready?
    case Finish(w) => w < |p.workers| && p.workers[w].Running?
    case Terminate => true
  }

  function Wake(ws: seq<Worker>): (r: seq<Worker>)
    ensures |r| == |ws| && forall i | 0 <= i < |ws| :: r[i] == if ws[i].Blocked? then Ready else ws[i]
  {
    seq(|ws|, i requires 0 <= i < |ws| => if ws[i].Blocked? then Ready else ws[i])
  }

  function Apply(p: Pool, s: Step): Pool
    requires Enabled(p, s)
  {
    match s
    case Post(t) =>
      if p.shutdown then p.(posted := p.posted + [t], inlined := p.inlined + [t])
      else p.(posted := p.posted + [t], tasks := p.tasks + [t], owed := p.owed + 1)
    case PostNull => p
    case NotifyNobody => p.(owed := p.owed - 1)
    case NotifyOne(w) => p.(owed := p.owed - 1, workers := p.workers[w := Ready])
    case SpuriousWake(w) => p.(workers := p.workers[w := Ready])
    case Check(w) =>
      if p.tasks != [] then
        p.(tasks := p.tasks[1..], taken := p.taken + [p.tasks[0]], workers := p.workers[w := Running(p.tasks[0])])
      else if p.shutdown then p.(workers := p.workers[w := Exited])
      else p.(workers := p.workers[w := Blocked])
    case Finish(w) =>
      p.(finished := p.finished + multiset{p.workers[w].task}, workers := p.workers[w := Ready])
    case Terminate => p.(shutdown := true, workers := Wake(p.workers))
  }

  ghost predicate IsRun(ps: seq<Pool>, ss: seq<Step>) {
    && |ps| == |ss| + 1
    && forall i | 0 <= i < |ss| :: Enabled(ps[i], ss[i]) && ps[i + 1] == Apply(ps[i], ss[i])
  }

  // ---- Counting workers ----

  function Count(ws: seq<Worker>, f: Worker -> nat): nat {
    if ws == [] then 0 else Count(ws[..|ws| - 1], f) + f(ws[|ws| - 1])
  }

  lemma {:induction false} CountUpdate(ws: seq<Worker>, f: Worker -> nat, w: nat, x: Worker)
    requires w < |ws|
    ensures Count(ws[w := x], f) == Count(ws, f) - f(ws[w]) + f(x)
    ensures Count(ws, f) >= f(ws[w])
  {
    var n := |ws| - 1;
    if w == n {
      assert ws[w := x][..n] == ws[..n];
    } else {
      CountUpdate(ws[..n], f, w, x);
      assert ws[w := x][..n] == ws[..n][w := x];
    }
  }

  function IsReady(w: Worker): nat { if w.Ready? then 1 else 0 }

  function Readies(p: Pool): nat { Count(p.workers, IsReady) }

  function RunningTasks(ws: seq<Worker>): multiset<Task> {
    if ws == [] then multiset{}
    else RunningTasks(ws[..|ws| - 1]) + Load(ws[|ws| - 1])
  }

  function Load(w: Worker): multiset<Task> { if w.Running? then multiset{w.task} else multiset{} }

  lemma RunningLast(init: seq<Worker>, x: Worker)
    ensures RunningTasks(init + [x]) == RunningTasks(init) + Load(x)
  {}

  lemma {:induction false} RunningUpdate(ws: seq<Worker>, w: nat, x: Worker)
    requires w < |ws|
    ensures RunningTasks(ws[w := x]) + Load(ws[w]) == RunningTasks(ws) + Load(x)
  {
    var n := |ws| - 1;
    var init, last := ws[..n], ws[n];
    assert ws == init + [last];
    RunningLast(init, last);
    if w == n {
      assert ws[w := x] == init + [x];
      RunningLast(init, x);
      SwapLast(RunningTasks(init), Load(x), Load(last));
    } else {
      assert ws[w := x] == init[w := x] + [last];
      RunningLast(init[w := x], last);
      RunningUpdate(init, w, x);
      AddBoth(RunningTasks(init[w := x]), Load(init[w]), RunningTasks(init), Load(x), Load(last));
    }
  }

  lemma SwapLast<T>(a: multiset<T>, x: multiset<T>, y: multiset<T>)
    ensures a + x + y == a + y + x
  {}

  lemma AddBoth<T>(a: multiset<T>, b: multiset<T>, c: multiset<T>, d: multiset<T>, z: multiset<T>)
    requires a + b == c + d
    ensures (a + z) + b == (c + z) + d
  {
    assert (a + z) + b == (a + b) + z;
  }

  lemma RunningMoves(ws: seq<Worker>, w: nat, x: Worker)
    requires w < |ws|
    ensures !ws[w].Running? && !x.Running? ==> RunningTasks(ws[w := x]) == RunningTasks(ws)
    ensures !ws[w].Running? && x.Running? ==> RunningTasks(ws[w := x]) == RunningTasks(ws) + multiset{x.task}
    ensures ws[w].Running? && !x.Running? ==> RunningTasks(ws[w := x]) + multiset{ws[w].task} == RunningTasks(ws)
  {
    RunningUpdate(ws, w, x);
    var before, after := RunningTasks(ws), RunningTasks(ws[w := x]);
    assert after + multiset{} == after && before + multiset{} == before;
  }

  lemma {:induction false} RunningWake(ws: seq<Worker>)
    ensures RunningTasks(Wake(ws)) == RunningTasks(ws)
  {
    if ws == [] {
    } else {
      var n := |ws| - 1;
      RunningWake(ws[..n]);
      assert Wake(ws)[..n] == Wake(ws[..n]);
    }
  }

  // ---- What every interleaving keeps ----

  /** Exactly once, in order: what was posted is what workers took, then what is queued,
      then what callers ran themselves; what workers took is finished or still running. */
  ghost predicate ExactlyOnce(p: Pool) {
    && p.posted == p.taken + p.tasks + p.inlined
    && (p.inlined != [] ==> p.shutdown)
    && multiset(p.taken) == p.finished + RunningTasks(p.workers)
  }

  /** No wake-up is lost: while a worker sleeps, every queued task has a notification on its
      way or a worker about to look. */
  ghost predicate NoLostWakeup(p: Pool) {
    (exists i :: 0 <= i < |p.workers| && p.workers[i].Blocked?) ==> |p.tasks| <= p.owed + Readies(p)
  }

  ghost predicate ShutdownInv(p: Pool) {
    && |p.workers| > 0
    && (p.shutdown ==> forall i | 0 <= i < |p.workers| :: !p.workers[i].Blocked?)
    && (forall i | 0 <= i < |p.workers| :: p.workers[i].Exited? ==> p.shutdown && p.tasks == [])
  }

  ghost predicate Inv(p: Pool) {
    ExactlyOnce(p) && NoLostWakeup(p) && ShutdownInv(p)
  }

  lemma ApplyKeepsExactlyOnce(p: Pool, s: Step)
    requires Enabled(p, s) && ExactlyOnce(p)
    ensures ExactlyOnce(Apply(p, s))
  {
    match s
    case Post(t) =>
      if !p.shutdown { assert p.inlined == [] && p.taken + (p.tasks + [t]) == p.taken + p.tasks + [t]; }
    case NotifyOne(w) => RunningMoves(p.workers, w, Ready);
    case SpuriousWake(w) => RunningMoves(p.workers, w, Ready);
    case Check(w) => CheckKeepsExactlyOnce(p, w);
    case Finish(w) => FinishKeepsExactlyOnce(p, w);
    case Terminate => RunningWake(p.workers);
    case _ =>
  }

  lemma CheckKeepsExactlyOnce(p: Pool, w: nat)
    requires Enabled(p, Check(w)) && ExactlyOnce(p)
    ensures ExactlyOnce(Apply(p, Check(w)))
  {
    if p.tasks == [] {
      RunningMoves(p.workers, w, if p.shutdown then Exited else Blocked);
    } else {
      RunningMoves(p.workers, w, Running(p.tasks[0]));
      TakeFirst(p.taken, p.tasks, p.inlined);
      AddLast(multiset(p.taken), p.finished, RunningTasks(p.workers), multiset{p.tasks[0]});
    }
  }

  lemma TakeFirst(taken: seq<Task>, tasks: seq<Task>, inlined: seq<Task>)
    requires tasks != []
    ensures taken + [tasks[0]] + tasks[1..] + inlined == taken + tasks + inlined
    ensures multiset(taken + [tasks[0]]) == multiset(taken) + multiset{tasks[0]}
  {}

  lemma AddLast<T>(a: multiset<T>, b: multiset<T>, c: multiset<T>, z: multiset<T>)
    requires a == b + c
    ensures a + z == b + (c + z)
  {}

  lemma FinishKeepsExactlyOnce(p: Pool, w: nat)
    requires Enabled(p, Finish(w)) && ExactlyOnce(p)
    ensures ExactlyOnce(Apply(p, Finish(w)))
  {
    var p', t := Apply(p, Finish(w)), multiset{p.workers[w].task};
    RunningMoves(p.workers, w, Ready);
    assert p.finished + (RunningTasks(p'.workers) + t) == p'.finished + RunningTasks(p'.workers);
  }

  lemma ApplyKeepsNoLostWakeup(p: Pool, s: Step)
    requires Enabled(p, s) && NoLostWakeup(p)
    ensures NoLostWakeup(Apply(p, s))
  {
    match s
    case NotifyOne(w) => CountUpdate(p.workers, IsReady, w, Ready);
    case SpuriousWake(w) => CountUpdate(p.workers, IsReady, w, Ready);
    case Check(w) =>
      var p' := Apply(p, s);
      CountUpdate(p.workers, IsReady, w, p'.workers[w]);
      if i :| 0 <= i < |p'.workers| && p'.workers[i].Blocked? && p.tasks != [] {
        assert p.workers[i].Blocked?;
      }
    case Finish(w) =>
      CountUpdate(p.workers, IsReady, w, Ready);
    case _ =>
  }

  lemma ApplyKeepsShutdownInv(p: Pool, s: Step)
    requires Enabled(p, s) && ShutdownInv(p)
    ensures ShutdownInv(Apply(p, s))
  {
  }

  lemma InitialInv(workerCount: nat)
    ensures Inv(Initial(workerCount))
  {
    NoneRunning(Initial(workerCount).workers);
  }

  lemma {:induction false} NoneRunning(ws: seq<Worker>)
    requires forall i | 0 <= i < |ws| :: !ws[i].Running?
    ensures RunningTasks(ws) == multiset{}
  {
    if ws == [] {
    } else {
      NoneRunning(ws[..|ws| - 1]);
    }
  }

  lemma ApplyKeepsInv(p: Pool, s: Step)
    requires Enabled(p, s) && Inv(p)
    ensures Inv(Apply(p, s))
  {
    ApplyKeepsExactlyOnce(p, s);
    ApplyKeepsNoLostWakeup(p, s);
    ApplyKeepsShutdownInv(p, s);
  }

  lemma {:induction false} RunInv(ps: seq<Pool>, ss: seq<Step>, workerCount: nat, n: nat)
    requires IsRun(ps, ss) && ps[0] == Initial(workerCount) && n < |ps|
    ensures Inv(ps[n])
  {
    if n == 0 {
      InitialInv(workerCount);
    } else {
      RunInv(ps, ss, workerCount, n - 1);
      ApplyKeepsInv(ps[n - 1], ss[n - 1]);
    }
  }

  // ---- Progress ----

  lemma {:induction false} CountPositive(ws: seq<Worker>)
    ensures Count(ws, IsReady) > 0 <==> exists i :: 0 <= i < |ws| && ws[i].Ready?
  {
    if ws == [] {
    } else {
      var n := |ws| - 1;
      CountPositive(ws[..n]);
      if i :| 0 <= i < |ws| && ws[i].Ready? { if i < n { assert ws[..n][i].Ready?; } }
      if Count(ws[..n], IsReady) > 0 {
        var i :| 0 <= i < n && ws[..n][i].Ready?;
        assert ws[i].Ready?;
      }
    }
  }

  /** With work queued, some worker is ready or running, or a notification is still owed. */
  lemma QueuedWorkIsServed(p: Pool)
    requires Inv(p) && p.tasks != []
    ensures p.owed > 0 || exists i :: 0 <= i < |p.workers| && (p.workers[i].Ready? || p.workers[i].Running?)
  {
    CountPositive(p.workers);
    if forall i | 0 <= i < |p.workers| :: !p.workers[i].Ready? && !p.workers[i].Running? {
      assert p.workers[0].Blocked?;
    }
  }

  /** Steps the pool takes by itself: turns of workers and notifications on their way. */
  predicate Internal(s: Step) {
    s.NotifyNobody? || s.NotifyOne? || s.Check? || s.Finish?
  }

  function Weight(w: Worker): nat {
    match w
    case Ready => 1
    case Running(_) => 2
    case Blocked => 0
    case Exited => 0
  }

  /** Work left: two steps per queued task, two per notification owed, and the steps each
      busy worker still has to take. */
  function Measure(p: Pool): nat { 2 * |p.tasks| + Count(p.workers, Weight) + 2 * p.owed }

  /** Work that a step from outside can add for a pool of `n` workers. */
  function Supply(s: Step, n: nat): nat {
    match s
    case Post(_) => 4
    case SpuriousWake(_) => 1
    case Terminate => n
    case _ => 0
  }

  lemma {:induction false} CountWakeBound(ws: seq<Worker>)
    ensures Count(Wake(ws), Weight) <= Count(ws, Weight) + |ws|
  {
    if ws == [] {
    } else {
      var n := |ws| - 1;
      CountWakeBound(ws[..n]);
      assert Wake(ws)[..n] == Wake(ws[..n]);
    }
  }

  lemma WorkStep(p: Pool, s: Step)
    requires Enabled(p, s)
    ensures |Apply(p, s).workers| == |p.workers|
    ensures Internal(s) ==> Measure(Apply(p, s)) < Measure(p)
    ensures Measure(Apply(p, s)) <= Measure(p) + Supply(s, |p.workers|)
  {
    match s
    case NotifyOne(w) => CountUpdate(p.workers, Weight, w, Ready);
    case SpuriousWake(w) => CountUpdate(p.workers, Weight, w, Ready);
    case Check(w) => CountUpdate(p.workers, Weight, w, Apply(p, s).workers[w]);
    case Finish(w) => CountUpdate(p.workers, Weight, w, Ready);
    case Terminate => CountWakeBound(p.workers);
    case _ =>
  }

  ghost function InternalSteps(ss: seq<Step>): nat {
    if ss == [] then 0 else InternalSteps(ss[..|ss| - 1]) + (if Internal(ss[|ss| - 1]) then 1 else 0)
  }

  ghost function Supplied(ss: seq<Step>, n: nat): nat {
    if ss == [] then 0 else Supplied(ss[..|ss| - 1], n) + Supply(ss[|ss| - 1], n)
  }

  /** Workers never spin: over any run the pool's own steps are bounded by the work at the
      start plus what was posted, spuriously woken or terminated meanwhile. */
  lemma {:induction false} WorkIsBounded(ps: seq<Pool>, ss: seq<Step>, n: nat)
    requires IsRun(ps, ss) && n < |ps|
    ensures |ps[n].workers| == |ps[0].workers|
    ensures InternalSteps(ss[..n]) + Measure(ps[n]) <= Measure(ps[0]) + Supplied(ss[..n], |ps[0].workers|)
  {
    if n == 0 {
    } else {
      WorkIsBounded(ps, ss, n - 1);
      WorkStep(ps[n - 1], ss[n - 1]);
      assert ss[..n][..n - 1] == ss[..n - 1];
    }
  }

  ghost predicate AtRest(p: Pool) { forall s | Internal(s) :: !Enabled(p, s) }

  lemma RestMeansIdle(p: Pool)
    requires ShutdownInv(p) && AtRest(p)
    ensures p.owed == 0 && Readies(p) == 0 && RunningTasks(p.workers) == multiset{}
    ensures forall i | 0 <= i < |p.workers| :: p.workers[i] == if p.shutdown then Exited else Blocked
  {
    forall i: nat | i < |p.workers| ensures p.workers[i].Blocked? || p.workers[i].Exited? {
      assert !Enabled(p, Check(i)) && !Enabled(p, Finish(i));
    }
    assert !Enabled(p, NotifyOne(0)) && !Enabled(p, NotifyNobody);
    CountPositive(p.workers);
    NoneRunning(p.workers);
  }

  /** The pool only comes to rest when there is nothing left to run: every task posted has
      been finished by a worker or run by its caller, and workers all sleep or have exited. */
  lemma RestMeansAllRun(p: Pool)
    requires Inv(p) && AtRest(p)
    ensures p.tasks == [] && p.owed == 0
    ensures multiset(p.posted) == p.finished + multiset(p.inlined)
    ensures forall i | 0 <= i < |p.workers| :: p.workers[i] == if p.shutdown then Exited else Blocked
  {
    RestMeansIdle(p);
    assert p.tasks == [] by { assert p.workers[0].Exited? || p.workers[0].Blocked?; }
    assert p.posted == p.taken + p.inlined;
  }

  /** After shutdown every internal step brings the drain closer to its end, and neither
      posts nor further `Terminate` calls add to it. */
  lemma DrainStep(p: Pool, s: Step)
    requires Inv(p) && p.shutdown && Enabled(p, s)
    ensures Apply(p, s).shutdown
    ensures Internal(s) ==> Measure(Apply(p, s)) < Measure(p)
    ensures !Internal(s) ==> Measure(Apply(p, s)) == Measure(p)
  {
    WorkStep(p, s);
    assert s.Terminate? ==> Wake(p.workers) == p.workers;
  }

  ghost predicate DrainRun(ps: seq<Pool>, ss: seq<Step>) {
    IsRun(ps, ss) && Inv(ps[0]) && ps[0].shutdown
  }

  /** The drain is bounded: a run that starts after `Terminate` takes at most
      `Measure` internal steps, however posts interleave with it. */
  lemma {:induction false} DrainIsBounded(ps: seq<Pool>, ss: seq<Step>, n: nat)
    requires DrainRun(ps, ss) && n < |ps|
    ensures ps[n].shutdown && Inv(ps[n])
    ensures InternalSteps(ss[..n]) + Measure(ps[n]) <= Measure(ps[0])
  {
    if n == 0 {
    } else {
      DrainIsBounded(ps, ss, n - 1);
      var p, s := ps[n - 1], ss[n - 1];
      DrainStep(p, s);
      ApplyKeepsInv(p, s);
      assert ss[..n][..n - 1] == ss[..n - 1];
    }
  }

  /** Once a worker has exited the queue is empty, and stays empty. */
  lemma {:induction false} ExitMeansDrained(ps: seq<Pool>, ss: seq<Step>, w: nat, n: nat)
    requires IsRun(ps, ss) && Inv(ps[0]) && n < |ps| && w < |ps[0].workers| && ps[0].workers[w].Exited?
    ensures Inv(ps[n]) && ps[n].shutdown && ps[n].tasks == []
    ensures w < |ps[n].workers| && ps[n].workers[w].Exited? && ps[n].taken == ps[0].taken
  {
    if n == 0 {
    } else {
      ExitMeansDrained(ps, ss, w, n - 1);
      ApplyKeepsInv(ps[n - 1], ss[n - 1]);
      ExitedStays(ps[n - 1], ss[n - 1], w);
    }
  }

  lemma ExitedStays(p: Pool, s: Step, w: nat)
    requires ShutdownInv(p) && Enabled(p, s) && w < |p.workers| && p.workers[w].Exited?
    ensures w < |Apply(p, s).workers| && Apply(p, s).workers[w].Exited?
    ensures Apply(p, s).taken == p.taken
  {
  }

  // ---- How many workers ----

  /** As many workers as are asked for, and at least one. */
  function Wanted(workerCount: nat): nat { if workerCount >= 1 then workerCount else 1 }

  /** No worker is ever added or lost; one that has exited is still counted. */
  lemma {:induction false} WorkersStay(ps: seq<Pool>, ss: seq<Step>, workerCount: nat, n: nat)
    requires IsRun(ps, ss) && ps[0] == Initial(workerCount) && n < |ps|
    ensures |ps[n].workers| >= 1 && (workerCount >= 1 ==> |ps[n].workers| == workerCount)
    ensures |ps[n].workers| == Wanted(workerCount)
  {
    if n == 0 {
    } else {
      WorkersStay(ps, ss, workerCount, n - 1);
      assert ps[n] == Apply(ps[n - 1], ss[n - 1]);
    }
  }

  function IsRunning(w: Worker): nat { if w.Running? then 1 else 0 }

  /** How many tasks are being run by workers at once. */
  function RunningCount(p: Pool): nat { Count(p.workers, IsRunning) }

  lemma {:induction false} CountBound(ws: seq<Worker>)
    ensures Count(ws, IsRunning) <= |ws|
  {
    if ws == [] {
    } else {
      CountBound(ws[..|ws| - 1]);
    }
  }

  /** A run from the start that ends in `p`. */
  ghost predicate Reachable(workerCount: nat, p: Pool) {
    exists ps: seq<Pool>, ss: seq<Step> :: RunsTo(ps, ss, workerCount, p)
  }

  ghost predicate RunsTo(ps: seq<Pool>, ss: seq<Step>, workerCount: nat, p: Pool) {
    IsRun(ps, ss) && ps[0] == Initial(workerCount) && ps[|ss|] == p
  }

  lemma RunsOn(ps: seq<Pool>, ss: seq<Step>, workerCount: nat, p: Pool, s: Step)
    requires RunsTo(ps, ss, workerCount, p) && Enabled(p, s)
    ensures Reachable(workerCount, Apply(p, s))
  {
    var ps', ss' := ps + [Apply(p, s)], ss + [s];
    forall i | 0 <= i < |ss'| ensures Enabled(ps'[i], ss'[i]) && ps'[i + 1] == Apply(ps'[i], ss'[i]) {
      if i < |ss| { assert ps'[i] == ps[i] && ps'[i + 1] == ps[i + 1] && ss'[i] == ss[i]; }
    }
    assert RunsTo(ps', ss', workerCount, Apply(p, s));
  }

  lemma ReachableSteps(workerCount: nat, p: Pool, s: Step)
    requires Reachable(workerCount, p) && Enabled(p, s)
    ensures Reachable(workerCount, Apply(p, s))
  {
    var ps: seq<Pool>, ss: seq<Step> :| RunsTo(ps, ss, workerCount, p);
    RunsOn(ps, ss, workerCount, p, s);
  }

  /** The first `k` workers are running, the others have not looked yet, and nothing is queued. */
  ghost predicate FirstRunning(p: Pool, k: nat) {
    && p.tasks == [] && !p.shutdown && k <= |p.workers|
    && forall i | 0 <= i < |p.workers| :: if i < k then p.workers[i].Running? else p.workers[i].Ready?
  }

  lemma {:induction false} FirstCounted(ws: seq<Worker>, k: nat)
    requires k <= |ws| && forall i | 0 <= i < |ws| :: if i < k then ws[i].Running? else ws[i].Ready?
    ensures Count(ws, IsRunning) == k
  {
    if ws == [] {
    } else {
      var n := |ws| - 1;
      FirstCounted(ws[..n], if k <= n then k else n);
    }
  }

  /** Posting a task and letting the next worker take it. */
  lemma OneMoreRuns(workerCount: nat, p: Pool, k: nat) returns (q: Pool)
    requires Reachable(workerCount, p) && FirstRunning(p, k) && k < |p.workers|
    ensures Reachable(workerCount, q) && FirstRunning(q, k + 1) && |q.workers| == |p.workers|
  {
    var posted := Apply(p, Post(Task(k)));
    ReachableSteps(workerCount, p, Post(Task(k)));
    q := Apply(posted, Check(k));
    ReachableSteps(workerCount, posted, Check(k));
  }

  lemma {:induction false} ManyRun(workerCount: nat, k: nat) returns (p: Pool)
    requires k <= Wanted(workerCount)
    ensures Reachable(workerCount, p) && FirstRunning(p, k) && |p.workers| == Wanted(workerCount)
  {
    if k == 0 {
      p := Initial(workerCount);
      assert RunsTo([p], [], workerCount, p);
    } else {
      p := ManyRun(workerCount, k - 1);
      p := OneMoreRuns(workerCount, p, k - 1);
    }
  }

  /** Exactly up to the number of workers can tasks be run at once. */
  lemma AtOnceIff(workerCount: nat, k: nat)
    ensures (exists p :: Reachable(workerCount, p) && RunningCount(p) == k) <==> k <= Wanted(workerCount)
  {
    if p :| Reachable(workerCount, p) && RunningCount(p) == k {
      var ps: seq<Pool>, ss: seq<Step> :| RunsTo(ps, ss, workerCount, p);
      WorkersStay(ps, ss, workerCount, |ss|);
      CountBound(p.workers);
    }
    if k <= Wanted(workerCount) {
      var p := ManyRun(workerCount, k);
      FirstCounted(p.workers, k);
    }
  }

  // ---- The object ----

  /** The loop object. Each method is one critical section of the source (or the notify or
      task call between two of them), so any interleaving is a sequence of these calls. */
  class ConcurrentMessageLoop {
    var tasks: seq<Task>
    var shutdown: bool
    var workers: seq<Worker>
    var owed: nat
    ghost var posted: seq<Task>
    ghost var inlined: seq<Task>
    ghost var taken: seq<Task>
    ghost var finished: multiset<Task>

    ghost function View(): Pool
      reads this
    {
      Pool(tasks, shutdown, workers, owed, posted, inlined, taken, finished)
    }

    constructor (workerCount: nat)
      ensures View() == Initial(workerCount) && Inv(View())
      ensures |workers| == if workerCount >= 1 then workerCount else 1
    {
      var n := if workerCount > 1 then workerCount else 1;
      tasks, shutdown, owed := [], false, 0;
      posted, inlined, taken, finished := [], [], [], multiset{};
      workers := [];
      new;
      for i := 0 to n
        invariant workers == seq(i, _ => Ready)
        invariant View().(workers := []) == Initial(workerCount).(workers := [])
      {
        workers := workers + [Ready];
      }
      InitialInv(workerCount);
    }

    /** `PostTask` up to its unlock; `runHere` tells the caller to run the task itself. */
    method PostTask(task: Option<Task>) returns (runHere: bool)
      requires Inv(View())
      modifies this
      ensures Inv(View()) && View() == Apply(old(View()), if task.Some? then Post(task.value) else PostNull)
      ensures runHere <==> task.Some? && shutdown
    {
      ApplyKeepsInv(View(), if task.Some? then Post(task.value) else PostNull);
      if task.None? {
        return false;
      }
      posted := posted + [task.value];
      if shutdown {
        inlined := inlined + [task.value];
        return true;
      }
      tasks := tasks + [task.value];
      owed := owed + 1;
      return false;
    }

    /** The `notify_one` that ends `PostTask`; `w` is the sleeper the system picks, if any sleeps. */
    method NotifyOneWorker(w: Option<nat>)
      requires Inv(View()) && owed > 0
      requires w.Some? ==> w.value < |workers| && workers[w.value].Blocked?
      requires w.None? ==> forall i | 0 <= i < |workers| :: workers[i] != Blocked
      modifies this
      ensures Inv(View()) && View() == Apply(old(View()), if w.Some? then NotifyOne(w.value) else NotifyNobody)
    {
      ghost var p := View();
      owed := owed - 1;
      if w.Some? {
        workers := workers[w.value := Ready];
        assert View() == Apply(p, NotifyOne(w.value));
        ApplyKeepsInv(p, NotifyOne(w.value));
      } else {
        assert View() == Apply(p, NotifyNobody);
        ApplyKeepsInv(p, NotifyNobody);
      }
    }

    /** One pass of `WorkerMain` from taking the lock to giving it up. */
    method WorkerTurn(w: nat)
      requires Inv(View()) && w < |workers| && workers[w].Ready?
      modifies this
      ensures Inv(View()) && View() == Apply(old(View()), Check(w))
    {
      ghost var p := View();
      if |tasks| == 0 && !shutdown {
        workers := workers[w := Blocked];
      } else if |tasks| == 0 {
        workers := workers[w := Exited];
      } else {
        var task := tasks[0];
        tasks := tasks[1..];
        taken := taken + [task];
        workers := workers[w := Running(task)];
      }
      assert View() == Apply(p, Check(w));
      ApplyKeepsInv(p, Check(w));
    }

    method FinishTask(w: nat)
      requires Inv(View()) && w < |workers| && workers[w].Running?
      modifies this
      ensures Inv(View()) && View() == Apply(old(View()), Finish(w))
    {
      ApplyKeepsInv(View(), Finish(w));
      finished := finished + multiset{workers[w].task};
      workers := workers[w := Ready];
    }

    method Terminate()
      requires Inv(View())
      modifies this
      ensures Inv(View()) && View() == Apply(old(View()), Step.Terminate)
    {
      ApplyKeepsInv(View(), Step.Terminate);
      shutdown := true;
      workers := Wake(workers);
    }
  }
}
