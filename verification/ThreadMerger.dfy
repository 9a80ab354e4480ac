/** `fml::GpuThreadMerger`: leases on merging two task queues, and `TaskRunner`'s question
    of which thread runs a queue. */
module ThreadMerger {
  import opened DelayedTasks
  import opened TaskQueueSpec
  import opened TaskQueues
  import opened Wrappers

  const LEASE_NOT_SET := -1
  const INT_MAX := 0x7FFF_FFFF
  const INT_MIN := -0x8000_0000

  datatype Status = RemainsMerged | RemainsUnmerged | UnmergedNow

  /** A merger's fields next to the registry it works on. */
  datatype Merger = Merger(platform: TaskQueueId, gpu: TaskQueueId, lease: int, merged: bool, reg: Registry)

  datatype Op =
    | MergeWithLease(term: nat)
    | ExtendLeaseTo(term: nat)
    | DecrementLease(status: Status)
    | Foreign(event: Event)   // a step of the registry made by anyone else

  ghost predicate MergerStep(m: Merger, op: Op, m': Merger) {
    match op
    case MergeWithLease(term) =>
      if m.merged then m' == m
      else
        && MergeStep(m.reg, m.platform, m.gpu, m'.merged, m'.reg)
        && m' == m.(lease := WrapInt(term), merged := m'.merged, reg := m'.reg)
    case ExtendLeaseTo(term) =>
      m' == m.(lease := if m.lease != LEASE_NOT_SET && WrapInt(term) > m.lease then WrapInt(term) else m.lease)
    case DecrementLease(status) =>
      if !m.merged || m.lease == LEASE_NOT_SET then status == RemainsUnmerged && m' == m
      else if m.lease == 1 then
        && status == UnmergedNow && UnmergeStep(m.reg, m.platform, true, m'.reg)
        && m' == m.(lease := 0, merged := false, reg := m'.reg)
      else status == RemainsMerged && m' == m.(lease := PreviousInt(m.lease))
    case Foreign(e) => Next(m.reg, e, m'.reg) && m' == m.(reg := m'.reg)
  }

  class GpuThreadMerger {
    const platform: TaskQueueId
    const gpu: TaskQueueId
    const queues: MessageLoopTaskQueues
    var leaseTerm: int
    var isMerged: bool

    ghost function View(): Merger
      reads this, queues
    {
      Merger(platform, gpu, leaseTerm, isMerged, queues.View())
    }

    constructor (platform: TaskQueueId, gpu: TaskQueueId, queues: MessageLoopTaskQueues)
      requires queues.Valid() && platform in queues.entries
      ensures View() == Merger(platform, gpu, LEASE_NOT_SET, Owns(queues.View(), platform, gpu), queues.View())
      ensures this.queues == queues
    {
      this.platform, this.gpu, this.queues := platform, gpu, queues;
      leaseTerm := LEASE_NOT_SET;
      isMerged := queues.Owns(platform, gpu);
    }

    method MergeWithLease(term: nat)
      requires term > 0 && queues.Valid()
      requires platform != gpu ==> platform in queues.entries && gpu in queues.entries
      modifies this, queues
      ensures queues.Valid() && MergerStep(old(View()), Op.MergeWithLease(term), View())
    {
      if !isMerged {
        var ok := queues.Merge(platform, gpu);
        isMerged := ok;
        leaseTerm := WrapInt(term);
      }
    }

    method ExtendLeaseTo(term: nat)
      requires term > 0
      modifies this
      ensures MergerStep(old(View()), Op.ExtendLeaseTo(term), View())
    {
      if leaseTerm != LEASE_NOT_SET && WrapInt(term) > leaseTerm {
        leaseTerm := WrapInt(term);
      }
    }

    /** Requires that the unmerge the source insists on can succeed. A lease that is not positive is counted
        down like any other. */
    method DecrementLease() returns (status: Status)
      requires queues.Valid() && platform in queues.entries
      requires isMerged && leaseTerm == 1 ==> queues.entries[platform].ownerOf != UNMERGED
      modifies this, queues
      ensures queues.Valid() && MergerStep(old(View()), Op.DecrementLease(status), View())
      ensures status == RemainsUnmerged <==> !old(isMerged) || old(leaseTerm) == LEASE_NOT_SET
      ensures status != RemainsUnmerged ==> (isMerged <==> status == RemainsMerged)
    {
      if !isMerged {
        return RemainsUnmerged;
      }
      if leaseTerm == LEASE_NOT_SET {
        return RemainsUnmerged;
      }
      leaseTerm := PreviousInt(leaseTerm);
      if leaseTerm == 0 {
        var success := queues.Unmerge(platform);
        assert success;
        isMerged := false;
        return UnmergedNow;
      }
      return RemainsMerged;
    }
  }

  /** `FML_DCHECK(lease_term_ > 0)` and `FML_CHECK(success)` in `DecrementLease`. */
  ghost predicate ChecksHold(m: Merger) {
    m.merged && m.lease != LEASE_NOT_SET ==>
      && m.lease > 0
      && (m.lease == 1 ==> m.platform in m.reg.entries && m.reg.entries[m.platform].ownerOf != UNMERGED)
  }

  // ---- The lease machine over whole runs ----

  ghost predicate LeaseInv(m: Merger) {
    && Paired(m.reg) && m.platform != m.gpu && m.platform in m.reg.entries && m.gpu in m.reg.entries
    && (m.merged <==> Owns(m.reg, m.platform, m.gpu))
    && (m.merged ==> m.lease > 0)
    && (!m.merged ==> Mergeable(m.reg, m.platform, m.gpu))
  }

  /** Lease terms that fit an `int`, and nobody else merging, unmerging or disposing the pair. */
  predicate Legal(m: Merger, op: Op) {
    match op
    case MergeWithLease(term) => 0 < term <= INT_MAX
    case ExtendLeaseTo(term) => 0 < term <= INT_MAX
    case DecrementLease(_) => true
    case Foreign(e) =>
      var pair := {m.platform, m.gpu};
      && (e.Merge? ==> e.owner == e.sub || (e.owner !in pair && e.sub !in pair))
      && (e.Unmerge? ==> e.owner !in pair)
      && (e.Dispose? ==> e.q !in pair)
  }

  lemma ForeignKeepsLinks(m: Merger, e: Event, m': Merger)
    requires LeaseInv(m) && Legal(m, Foreign(e)) && MergerStep(m, Foreign(e), m')
    ensures m.platform in m'.reg.entries && m.gpu in m'.reg.entries
    ensures forall q | q in {m.platform, m.gpu} ::
              && m'.reg.entries[q].ownerOf == m.reg.entries[q].ownerOf
              && m'.reg.entries[q].subsumedBy == m.reg.entries[q].subsumedBy
  {
    var r, r', p, g := m.reg, m'.reg, m.platform, m.gpu;
    assert PairedAt(r, p) && PairedAt(r, g);
    match e
    case Dispose(q) =>
      assert PairedAt(r, q);
      PairsAreDisjoint(r, q, p);
      PairsAreDisjoint(r, q, g);
    case Unmerge(owner, ok) =>
      assert PairedAt(r, owner);
      PairsAreDisjoint(r, owner, p);
      PairsAreDisjoint(r, owner, g);
    case DisposeTasks(_) => TasksKeepLinks(r, e, r');
    case Register(_, _, _) => TasksKeepLinks(r, e, r');
    case Flush(_, _, _, _) => TasksKeepLinks(r, e, r');
    case _ =>
  }

  /** Moving tasks leaves the links between queues alone. */
  lemma TasksKeepLinks(r: Registry, e: Event, r': Registry)
    requires Next(r, e, r') && (e.DisposeTasks? || e.Register? || e.Flush?)
    ensures SameLinks(r.entries, r'.entries)
  {
    match e
    case DisposeTasks(q) => PutKeepsLinks(r.entries, q, multiset{}, r.entries[q].ownerOf, multiset{});
    case Register(q, c, time) => PutKeepsLinks(r.entries, q, TasksOf(r', q), q, multiset{});
    case Flush(q, single, now, fired) =>
      PutKeepsLinks(r.entries, q, TasksOf(r', q), r.entries[q].ownerOf, TasksOf(r', r.entries[q].ownerOf));
  }

  lemma MergerStepKeepsInv(m: Merger, op: Op, m': Merger)
    requires LeaseInv(m) && Legal(m, op) && MergerStep(m, op, m')
    ensures LeaseInv(m')
  {
    var p, g := m.platform, m.gpu;
    assert PairedAt(m.reg, p) && PairedAt(m.reg, g);
    match op
    case MergeWithLease(term) =>
      if !m.merged { LinkKeepsPairing(m.reg, p, g, m'.reg); }
    case DecrementLease(status) =>
      if status == UnmergedNow { UnlinkKeepsPairing(m.reg, p, g, m'.reg); }
    case Foreign(e) =>
      NextKeepsPairing(m.reg, e, m'.reg);
      ForeignKeepsLinks(m, e, m');
    case _ =>
  }

  /** What a decrement answers is what has become of the pair. */
  lemma StatusIff(m: Merger, status: Status, m': Merger)
    requires LeaseInv(m) && MergerStep(m, DecrementLease(status), m')
    ensures var before, after := Owns(m.reg, m.platform, m.gpu), Owns(m'.reg, m.platform, m.gpu);
            && (status == RemainsMerged <==> before && after)
            && (status == UnmergedNow <==> before && !after)
            && (status == RemainsUnmerged <==> !before)
            && (m'.merged <==> status == RemainsMerged)
  {
    assert PairedAt(m.reg, m.platform) && PairedAt(m.reg, m.gpu);
  }

  /** Whatever the lease, "remains unmerged" is answered exactly if the pair is not merged or no lease is set, and
      the pair is unmerged exactly if the lease was 1; the lease is counted down in all other cases. */
  lemma StatusOfAnyLease(m: Merger, status: Status, m': Merger)
    requires MergerStep(m, DecrementLease(status), m')
    ensures status == RemainsUnmerged <==> !m.merged || m.lease == LEASE_NOT_SET
    ensures status == UnmergedNow <==> m.merged && m.lease == 1
    ensures m'.merged <==> m.merged && status != UnmergedNow
    ensures m'.lease == if status == RemainsUnmerged then m.lease else PreviousInt(m.lease)
  {}

  /** A merge on request, whether it is granted or refused, leaves the merger knowing whether the pair is one, and
      with the lease that was asked for. */
  lemma MergedMeansOwned(m: Merger, term: nat, m': Merger)
    requires Paired(m.reg) && !m.merged && MergerStep(m, MergeWithLease(term), m') && m.platform != m.gpu
    ensures m'.merged <==> Owns(m'.reg, m.platform, m.gpu)
    ensures m'.merged <==>
              || Owns(m.reg, m.platform, m.gpu)
              || (Partner(m.reg, m.platform) == UNMERGED && Partner(m.reg, m.gpu) == UNMERGED)
    ensures !m'.merged ==> m'.reg == m.reg
    ensures m'.lease == WrapInt(term)
  {
    assert PairedAt(m.reg, m.platform) && PairedAt(m.reg, m.gpu);
  }

  /** A merger that finds its queues merged when it is made never gets a lease, whatever is asked of it and whatever
      others do: it stays merged to itself, and no decrement ever unmerges. */
  lemma {:induction false} FoundMergedStays(ms: seq<Merger>, ops: seq<Op>, n: nat)
    requires |ms| == |ops| + 1 && n < |ms|
    requires forall i | 0 <= i < |ops| :: MergerStep(ms[i], ops[i], ms[i + 1])
    requires ms[0].merged && ms[0].lease == LEASE_NOT_SET
    ensures ms[n].merged && ms[n].lease == LEASE_NOT_SET
    ensures n < |ops| && ops[n].DecrementLease? ==> ops[n].status == RemainsUnmerged
    ensures n < |ops| && !ops[n].Foreign? ==> ms[n + 1] == ms[n]
  {
    if n == 0 {
    } else {
      FoundMergedStays(ms, ops, n - 1);
      assert MergerStep(ms[n - 1], ops[n - 1], ms[n]);
    }
    assert n < |ops| ==> MergerStep(ms[n], ops[n], ms[n + 1]);
  }

  ghost predicate IsMergerRun(ms: seq<Merger>, ops: seq<Op>) {
    && |ms| == |ops| + 1
    && forall i | 0 <= i < |ops| :: Legal(ms[i], ops[i]) && MergerStep(ms[i], ops[i], ms[i + 1])
  }

  /** From distinct, unmerged queues: in every reachable state `IsMerged` says whether the
      platform queue owns the gpu queue, a merged pair has a positive lease, and neither
      check of `DecrementLease` can fail. */
  lemma {:induction false} CheckNeverFails(ms: seq<Merger>, ops: seq<Op>, n: nat)
    requires IsMergerRun(ms, ops) && n < |ms|
    requires Paired(ms[0].reg) && ms[0].platform != ms[0].gpu
    requires ms[0].platform in ms[0].reg.entries && ms[0].gpu in ms[0].reg.entries
    requires Mergeable(ms[0].reg, ms[0].platform, ms[0].gpu)
    requires ms[0].lease == LEASE_NOT_SET && ms[0].merged == Owns(ms[0].reg, ms[0].platform, ms[0].gpu)
    ensures LeaseInv(ms[n]) && ChecksHold(ms[n])
  {
    if n == 0 {
      assert PairedAt(ms[0].reg, ms[0].gpu);
    } else {
      CheckNeverFails(ms, ops, n - 1);
      MergerStepKeepsInv(ms[n - 1], ops[n - 1], ms[n]);
    }
  }

  /** A merge leaves a positive lease, as the source expects, exactly for terms whose low 32 bits are a
      positive `int`. */
  lemma LeasePositiveIff(m: Merger, term: nat, m': Merger)
    requires LeaseInv(m) && !m.merged && MergerStep(m, MergeWithLease(term), m')
    ensures m'.merged
    ensures m'.lease > 0 <==> 0 < term % TWO32 <= INT_MAX
  {
  }

  /** A term of 2^32 is a lease of zero, on which the source's own check fails. */
  lemma WholeRoundFailsCheck(m: Merger, m': Merger)
    requires LeaseInv(m) && !m.merged && MergerStep(m, MergeWithLease(TWO32), m')
    ensures m'.merged && m'.lease == 0 && !ChecksHold(m')
  {
    assert WrapInt(TWO32) == 0;
  }

  /** A term of 2^32 - 1 reads as no lease at all: merged, and every decrement claims otherwise. */
  lemma AllOnesIsNoLease(m: Merger, m': Merger, status: Status, m'': Merger)
    requires LeaseInv(m) && !m.merged && MergerStep(m, MergeWithLease(TWO32 - 1), m')
    requires MergerStep(m', DecrementLease(status), m'')
    ensures m'.merged && status == RemainsUnmerged && m'' == m'
  {
    assert WrapInt(TWO32 - 1) == LEASE_NOT_SET;
  }

  /** A term of 2^31 is stored as the least `int`, and the first decrement makes it the greatest. */
  lemma HalfRoundWraps(m: Merger, m': Merger, status: Status, m'': Merger)
    requires LeaseInv(m) && !m.merged && MergerStep(m, MergeWithLease(0x8000_0000), m')
    requires MergerStep(m', DecrementLease(status), m'')
    ensures m'.merged && m'.lease == INT_MIN && !ChecksHold(m')
    ensures status == RemainsMerged && m'' == m'.(lease := INT_MAX)
  {
    assert WrapInt(0x8000_0000) == INT_MIN;
  }

  /** An extension to 2^31 frames is ignored. */
  lemma BigExtensionIgnored(m: Merger, m': Merger)
    requires m.lease == 2 && MergerStep(m, ExtendLeaseTo(0x8000_0000), m')
    ensures m' == m
  {
    assert WrapInt(0x8000_0000) == INT_MIN;
  }

  /** `IsOnRasterizingThread`, for a caller on the thread of queue `current`. */
  predicate IsOnRasterizingThread(m: Merger, current: TaskQueueId) {
    if m.merged then current == m.platform else current == m.gpu
  }

  /** In every reachable state rasterizing belongs to the one loop that runs the gpu queue's tasks. */
  lemma RasterizesWhereGpuTasksRun(m: Merger, current: TaskQueueId)
    requires LeaseInv(m)
    ensures IsOnRasterizingThread(m, current) <==> current == LoopOf(m.reg, m.gpu)
  {}

  // ---- How long a merge lasts ----

  ghost function Decrements(ops: seq<Op>): nat {
    if ops == [] then 0
    else Decrements(ops[..|ops| - 1]) + (if ops[|ops| - 1].DecrementLease? then 1 else 0)
  }

  /** A promise to stay merged: the merge that opens the session, or an extension. */
  ghost predicate Promise(ops: seq<Op>, i: nat) {
    i < |ops| && (i == 0 || ops[i].ExtendLeaseTo?) && (ops[i].MergeWithLease? || ops[i].ExtendLeaseTo?)
  }

  /** Frames promise `i` still has to run after `ops`. */
  ghost function Left(ops: seq<Op>, i: nat): int
    requires Promise(ops, i)
  {
    ops[i].term - Decrements(ops[i + 1..])
  }

  ghost predicate LongestPromise(ops: seq<Op>, left: int) {
    && (exists i: nat :: Promise(ops, i) && Left(ops, i) == left)
    && (forall i: nat | Promise(ops, i) :: Left(ops, i) <= left)
  }

  lemma LeftSteps(ops: seq<Op>, op: Op, i: nat)
    requires Promise(ops, i)
    ensures Promise(ops + [op], i)
    ensures Left(ops + [op], i) == Left(ops, i) - (if op.DecrementLease? then 1 else 0)
  {
    var tail := (ops + [op])[i + 1..];
    assert tail[..|tail| - 1] == ops[i + 1..];
  }

  lemma LongestSteps(ops: seq<Op>, op: Op, left: int)
    requires LongestPromise(ops, left)
    ensures op.DecrementLease? ==> LongestPromise(ops + [op], left - 1)
    ensures op.ExtendLeaseTo? ==> LongestPromise(ops + [op], if op.term > left then op.term else left)
    ensures op.MergeWithLease? || op.Foreign? ==> LongestPromise(ops + [op], left)
  {
    var ops' := ops + [op];
    var n := |ops|;
    var i0: nat :| Promise(ops, i0) && Left(ops, i0) == left;
    LeftSteps(ops, op, i0);
    if op.ExtendLeaseTo? {
      assert ops'[n + 1..] == [];
      assert Promise(ops', n) && Left(ops', n) == op.term;
    }
    forall i: nat | Promise(ops', i) && i < n
      ensures Left(ops', i) <= left - (if op.DecrementLease? then 1 else 0)
    {
      assert Promise(ops, i);
      LeftSteps(ops, op, i);
    }
  }

  /** A run that merges and then stays merged, whatever the terms. */
  ghost predicate IsSession(ms: seq<Merger>, ops: seq<Op>) {
    && |ms| == |ops| + 1 && |ops| > 0 && ops[0].MergeWithLease? && !ms[0].merged
    && (forall i | 0 < i < |ms| :: ms[i].merged)
    && forall i | 0 <= i < |ops| :: PositiveTerm(ops[i]) && MergerStep(ms[i], ops[i], ms[i + 1])
  }

  /** As the source checks. */
  predicate PositiveTerm(op: Op) { op.MergeWithLease? || op.ExtendLeaseTo? ==> op.term > 0 }

  ghost predicate PromisesFit(ops: seq<Op>) { forall i: nat | Promise(ops, i) :: ops[i].term <= INT_MAX }

  lemma SessionPrefix(ms: seq<Merger>, ops: seq<Op>, n: nat)
    requires IsSession(ms, ops) && 0 < n <= |ops|
    ensures IsSession(ms[..n + 1], ops[..n]) && (PromisesFit(ops) ==> PromisesFit(ops[..n]))
  {
    forall i: nat | Promise(ops[..n], i) ensures Promise(ops, i) {}
  }

  lemma LeaseSteps(m: Merger, op: Op, m': Merger)
    requires MergerStep(m, op, m') && m.merged && m'.merged && m.lease > 0
    requires op.ExtendLeaseTo? ==> op.term <= INT_MAX
    ensures m'.lease > 0
    ensures m'.lease == match op
                        case DecrementLease(_) => m.lease - 1
                        case ExtendLeaseTo(term) => if term > m.lease then term else m.lease
                        case _ => m.lease
  {
  }

  /** While the threads stay merged, the lease is positive and the longest of the promises made: each merge
      or extension counted down by the decrements since. */
  lemma {:induction false} LeaseIsLongestPromise(ms: seq<Merger>, ops: seq<Op>)
    requires IsSession(ms, ops) && PromisesFit(ops)
    ensures ms[|ops|].lease > 0 && LongestPromise(ops, ms[|ops|].lease)
    decreases ops
  {
    var n := |ops| - 1;
    if n == 0 {
      assert ops[1..] == [];
      assert Promise(ops, 0) && Left(ops, 0) == ops[0].term;
      assert MergerStep(ms[0], ops[0], ms[1]);
    } else {
      SessionPrefix(ms, ops, n);
      LeaseIsLongestPromise(ms[..n + 1], ops[..n]);
      assert ops == ops[..n] + [ops[n]];
      assert ops[n].ExtendLeaseTo? ==> Promise(ops, n);
      LeaseSteps(ms[n], ops[n], ms[n + 1]);
      LongestSteps(ops[..n], ops[n], ms[n].lease);
    }
  }

  lemma {:induction false} LeaseIsInt(ms: seq<Merger>, ops: seq<Op>, n: nat)
    requires IsSession(ms, ops) && 0 < n < |ms|
    ensures ms[n].lease <= INT_MAX
  {
    assert MergerStep(ms[n - 1], ops[n - 1], ms[n]);
    if n == 1 {
    } else {
      LeaseIsInt(ms, ops, n - 1);
    }
  }

  lemma PromiseKept(ms: seq<Merger>, ops: seq<Op>, i: nat)
    requires IsSession(ms, ops) && Promise(ops, i) && LongestPromise(ops[..i + 1], ms[i + 1].lease)
    ensures ops[i].term <= INT_MAX
  {
    var made := ops[..i + 1];
    assert made[i + 1..] == [];
    assert Promise(made, i) && Left(made, i) == ops[i].term;
    LeaseIsInt(ms, ops, i + 1);
  }

  /** The lease is the longest promise throughout a session if and only if every term promised is an `int`. */
  lemma LongestPromiseIff(ms: seq<Merger>, ops: seq<Op>)
    requires IsSession(ms, ops)
    ensures (forall n: nat | 0 < n <= |ops| :: LongestPromise(ops[..n], ms[n].lease)) <==> PromisesFit(ops)
  {
    if PromisesFit(ops) {
      forall n: nat | 0 < n <= |ops| ensures LongestPromise(ops[..n], ms[n].lease) {
        SessionPrefix(ms, ops, n);
        LeaseIsLongestPromise(ms[..n + 1], ops[..n]);
      }
    }
    if forall n: nat | 0 < n <= |ops| :: LongestPromise(ops[..n], ms[n].lease) {
      forall i: nat | Promise(ops, i) ensures ops[i].term <= INT_MAX {
        assert LongestPromise(ops[..i + 1], ms[i + 1].lease);
        PromiseKept(ms, ops, i);
      }
    }
  }

  /** `DecrementLease` reports `kUnmergedNow` exactly when, with this call, every merge or
      extension of the session has seen as many decrements as it asked for. */
  lemma UnmergedExactlyWhenPromisesEnd(ms: seq<Merger>, ops: seq<Op>, status: Status, m': Merger)
    requires IsSession(ms, ops) && PromisesFit(ops)
    requires MergerStep(ms[|ops|], DecrementLease(status), m')
    ensures status == UnmergedNow <==>
              forall i: nat | Promise(ops, i) :: Left(ops, i) <= 1
    ensures m'.merged <==> status != UnmergedNow
  {
    LeaseIsLongestPromise(ms, ops);
    var i: nat :| Promise(ops, i) && Left(ops, i) == ms[|ops|].lease;
  }

  // ---- Counting down without a check ----

  /** A merge, after which this merger only counts down. */
  ghost predicate IsCountdown(ms: seq<Merger>, ops: seq<Op>, term: nat) {
    && |ms| == |ops| + 1 && |ops| > 0 && ops[0] == MergeWithLease(term) && !ms[0].merged && ms[1].merged
    && (forall i | 0 < i < |ops| :: ops[i].DecrementLease? || ops[i].Foreign?)
    && forall i | 0 <= i < |ops| :: MergerStep(ms[i], ops[i], ms[i + 1])
  }

  /** Whether a term, by its low 32 bits, is ever counted down to an end. */
  predicate Ends(low: nat) { 0 < low < TWO32 - 1 }

  /** The merger after `n` decrements of a lease with these low 32 bits. */
  ghost predicate CountedDown(m: Merger, low: nat, n: nat) {
    if Ends(low) then (m.merged <==> n < low) && (n < low ==> m.lease == WrapInt(low - n))
    else m.merged && m.lease == if low == 0 && n == 0 then 0 else LEASE_NOT_SET
  }

  lemma PreviousWraps(n: nat)
    requires 0 < n < TWO32 - 1
    ensures PreviousInt(WrapInt(n)) == WrapInt(n - 1) && WrapInt(n) != LEASE_NOT_SET
    ensures WrapInt(n) == 1 <==> n == 1
  {}

  lemma CountsDown(m: Merger, low: nat, n: nat, status: Status, m': Merger)
    requires low < TWO32 && CountedDown(m, low, n) && MergerStep(m, DecrementLease(status), m')
    ensures CountedDown(m', low, n + 1)
    ensures status == UnmergedNow <==> Ends(low) && n + 1 == low
  {
    if Ends(low) && n < low { PreviousWraps(low - n); }
  }

  lemma {:induction false} CountdownSoFar(ms: seq<Merger>, ops: seq<Op>, term: nat, n: nat)
    requires IsCountdown(ms, ops, term) && 0 < n < |ms|
    ensures CountedDown(ms[n], term % TWO32, Decrements(ops[1..n]))
  {
    assert MergerStep(ms[n - 1], ops[n - 1], ms[n]);
    if n == 1 {
      LowBits(term);
    } else {
      CountdownSoFar(ms, ops, term, n - 1);
      assert ops[1..n][..n - 2] == ops[1..n - 1];
      if ops[n - 1].DecrementLease? {
        CountsDown(ms[n - 1], term % TWO32, Decrements(ops[1..n - 1]), ops[n - 1].status, ms[n]);
      }
    }
  }

  lemma LowBits(term: nat)
    ensures WrapInt(term % TWO32) == WrapInt(term) && (term % TWO32 == TWO32 - 1 ==> WrapInt(term) == LEASE_NOT_SET)
    ensures term % TWO32 == 0 ==> WrapInt(term) == 0
  {}

  /** Counting down unmerges at decrement number `term % 2^32`, if that is neither 0 nor 2^32 - 1, and
      otherwise never: the counter wraps around on its way where it starts below zero. */
  lemma UnmergesAtTermIff(ms: seq<Merger>, ops: seq<Op>, term: nat, n: nat)
    requires IsCountdown(ms, ops, term) && 0 < n < |ops| && ops[n].DecrementLease?
    ensures ops[n].status == UnmergedNow <==> Ends(term % TWO32) && Decrements(ops[1..n]) + 1 == term % TWO32
    ensures ms[n].merged <==> !Ends(term % TWO32) || Decrements(ops[1..n]) < term % TWO32
  {
    CountdownSoFar(ms, ops, term, n);
    CountsDown(ms[n], term % TWO32, Decrements(ops[1..n]), ops[n].status, ms[n + 1]);
  }

  // ---- Task runners ----

  /** `TaskRunner::RunsTasksOnCurrentThread`; `current` is the queue of the calling thread. */
  method RunsTasksOnCurrentThread(queues: MessageLoopTaskQueues, current: Option<TaskQueueId>, loop: TaskQueueId)
    returns (yes: bool)
    requires queues.Valid() && loop in queues.entries && (current.Some? ==> current.value in queues.entries)
    ensures yes <==> current.Some? && LoopOf(queues.View(), current.value) == LoopOf(queues.View(), loop)
  {
    if current.None? {
      return false;
    }
    SameThreadEquivalence(queues.View(), current.value, loop, loop);
    if current.value == loop {
      return true;
    }
    if queues.Owns(current.value, loop) {
      return true;
    }
    if queues.Owns(loop, current.value) {
      return true;
    }
    return false;
  }
}
