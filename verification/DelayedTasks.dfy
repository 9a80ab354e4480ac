/** `fml::DelayedTask`, its ordering, and the min-heap `DelayedTaskQueue`. A heap is
    modelled as the multiset of its tasks; `top()` is any task that is not greater
    than another one. */
module DelayedTasks {

  const MIN_TIME := -0x8000_0000_0000_0000
  const MAX_TIME := 0x7FFF_FFFF_FFFF_FFFF

  /** `fml::TimePoint`: signed 64-bit nanoseconds. */
  type TimePoint = t: int | MIN_TIME <= t <= MAX_TIME

  /** Task bodies are opaque. */
  type Closure = nat

  datatype DelayedTask = DelayedTask(order: nat, task: Closure, targetTime: TimePoint)

  /** `DelayedTask::operator>`. */
  predicate Greater(a: DelayedTask, b: DelayedTask) {
    if a.targetTime == b.targetTime then a.order > b.order else a.targetTime > b.targetTime
  }

  predicate SameKey(a: DelayedTask, b: DelayedTask) {
    a.targetTime == b.targetTime && a.order == b.order
  }

  ghost predicate Sorted(s: seq<DelayedTask>) {
    forall i, j | 0 <= i < j < |s| :: !Greater(s[i], s[j])
  }

  ghost predicate IsTop(q: multiset<DelayedTask>, t: DelayedTask) {
    t in q && forall u | u in q :: !Greater(t, u)
  }

  ghost predicate DistinctKeys(q: multiset<DelayedTask>) {
    forall t, u | t in q && u in q && SameKey(t, u) :: t == u && q[t] == 1
  }

  lemma {:induction false} TopExists(q: multiset<DelayedTask>)
    requires q != multiset{}
    ensures exists t :: IsTop(q, t)
    decreases |q|
  {
    var x :| x in q;
    var rest := q - multiset{x};
    if rest == multiset{} {
      assert q == multiset{x};
      assert IsTop(q, x);
    } else {
      TopExists(rest);
      var t :| IsTop(rest, t);
      var least := if Greater(t, x) then x else t;
      forall u | u in q ensures !Greater(least, u) {
        assert u == x || u in rest;
      }
      assert IsTop(q, least);
    }
  }

  /** `DelayedTaskQueue::top()`; which of several least tasks it is, is left open. */
  method Top(q: multiset<DelayedTask>) returns (top: DelayedTask)
    requires q != multiset{}
    ensures IsTop(q, top)
  {
    TopExists(q);
    top :| top in q && forall u | u in q :: !Greater(top, u);
  }

  /** Target time of the heap's top; `TimePoint::Max()` for an empty heap. */
  ghost function EarliestTime(q: multiset<DelayedTask>): (time: TimePoint)
    ensures forall t | t in q :: time <= t.targetTime
    ensures q == multiset{} ==> time == MAX_TIME
    ensures q != multiset{} ==> exists t :: t in q && t.targetTime == time
  {
    if q == multiset{} then MAX_TIME
    else
      TopExists(q);
      var t :| IsTop(q, t);
      t.targetTime
  }

  lemma TopIsEarliest(q: multiset<DelayedTask>, t: DelayedTask)
    requires IsTop(q, t)
    ensures t.targetTime == EarliestTime(q)
  {}

  /** What one dequeue call may do to a pair of heaps: exactly the tasks that are due
      leave (or, for a single flush, the least of them), in order, and nothing else moves. */
  ghost predicate Flushed(own: multiset<DelayedTask>, sub: multiset<DelayedTask>, single: bool, now: TimePoint,
                          fired: seq<DelayedTask>, own': multiset<DelayedTask>, sub': multiset<DelayedTask>)
  {
    && own' <= own && sub' <= sub
    && own + sub == multiset(fired) + own' + sub'
    && Sorted(fired)
    && (forall t | t in fired :: t.targetTime <= now)
    && (if single
        then && |fired| <= 1
             && (fired == [] ==> forall t | t in own + sub :: t.targetTime > now)
             && (fired != [] ==> IsTop(own + sub, fired[0]))
        else forall t | t in own' + sub' :: t.targetTime > now)
  }

  /** The two-heap dequeue is a dequeue of one priority queue over the union. */
  lemma TwoHeapsRefineOne(own: multiset<DelayedTask>, sub: multiset<DelayedTask>, single: bool, now: TimePoint,
                          fired: seq<DelayedTask>, own': multiset<DelayedTask>, sub': multiset<DelayedTask>)
    requires Flushed(own, sub, single, now, fired, own', sub')
    ensures Flushed(own + sub, multiset{}, single, now, fired, own' + sub', multiset{})
    // A heap keeps exactly its own tasks that did not fire.
    ensures !single ==> forall t :: own'[t] == (if t.targetTime > now then own[t] else 0)
    ensures !single ==> forall t :: sub'[t] == (if t.targetTime > now then sub[t] else 0)
    ensures !single ==> forall t :: multiset(fired)[t] == (if t.targetTime <= now then own[t] + sub[t] else 0)
  {
    assert (own + sub) + multiset{} == own + sub;
    assert (own' + sub') + multiset{} == own' + sub';
    assert multiset(fired) + (own' + sub') == multiset(fired) + own' + sub';
    if !single {
      forall t
        ensures own'[t] == (if t.targetTime > now then own[t] else 0)
        ensures sub'[t] == (if t.targetTime > now then sub[t] else 0)
        ensures multiset(fired)[t] == (if t.targetTime <= now then own[t] + sub[t] else 0)
      {
        assert (own + sub)[t] == (multiset(fired) + own' + sub')[t];
        assert own'[t] <= own[t] && sub'[t] <= sub[t];
        if t.targetTime > now {
          assert t !in multiset(fired);
        } else {
          assert t !in own' + sub';
        }
      }
    }
  }

  /** Tasks with the same key are the same; there may be several of them. */
  ghost predicate KeyDetermines(q: multiset<DelayedTask>) {
    forall t, u | t in q && u in q && SameKey(t, u) :: t == u
  }

  lemma SortedHeads(a: seq<DelayedTask>, b: seq<DelayedTask>)
    requires Sorted(a) && Sorted(b) && multiset(a) == multiset(b) && a != [] && b != []
    requires KeyDetermines(multiset(a))
    ensures a[0] == b[0]
  {
    assert a[0] in multiset(b) && b[0] in multiset(a);
    var i :| 0 <= i < |b| && b[i] == a[0];
    var j :| 0 <= j < |a| && a[j] == b[0];
    if i != 0 && j != 0 {
      assert !Greater(a[0], a[j]) && !Greater(b[0], b[i]);
      assert SameKey(a[0], b[0]);
    }
  }

  lemma KeyDeterminesSub(p: multiset<DelayedTask>, q: multiset<DelayedTask>)
    requires KeyDetermines(q) && p <= q
    ensures KeyDetermines(p)
  {}

  lemma {:induction false} SortedUnique(a: seq<DelayedTask>, b: seq<DelayedTask>)
    requires Sorted(a) && Sorted(b) && multiset(a) == multiset(b)
    requires KeyDetermines(multiset(a))
    ensures a == b
  {
    assert |multiset(a)| == |a| && |multiset(b)| == |b|;
    if a == [] {
    } else {
      SortedHeads(a, b);
      var a1, b1 := a[1..], b[1..];
      assert a == [a[0]] + a1 && b == [b[0]] + b1;
      assert multiset(a1) == multiset(a) - multiset{a[0]};
      assert multiset(b1) == multiset(b) - multiset{b[0]};
      KeyDeterminesSub(multiset(a1), multiset(a));
      SortedUnique(a1, b1);
    }
  }

  /** While keys are distinct, what a flush fires is a function of the union alone. */
  lemma FlushDeterministic(own1: multiset<DelayedTask>, sub1: multiset<DelayedTask>,
                           own2: multiset<DelayedTask>, sub2: multiset<DelayedTask>, single: bool, now: TimePoint,
                           f1: seq<DelayedTask>, own1': multiset<DelayedTask>, sub1': multiset<DelayedTask>,
                           f2: seq<DelayedTask>, own2': multiset<DelayedTask>, sub2': multiset<DelayedTask>)
    requires own1 + sub1 == own2 + sub2 && DistinctKeys(own1 + sub1)
    requires Flushed(own1, sub1, single, now, f1, own1', sub1')
    requires Flushed(own2, sub2, single, now, f2, own2', sub2')
    ensures f1 == f2
  {
    if single {
      if f1 != [] { assert f1[0] in multiset(f1); assert f1[0] in own1 + sub1; }
      if f2 != [] { assert f2[0] in multiset(f2); assert f2[0] in own2 + sub2; }
      if f1 != [] && f2 != [] {
        assert SameKey(f1[0], f2[0]);
        assert f1 == [f1[0]] && f2 == [f2[0]];
      }
    } else {
      TwoHeapsRefineOne(own1, sub1, single, now, f1, own1', sub1');
      TwoHeapsRefineOne(own2, sub2, single, now, f2, own2', sub2');
      forall t ensures multiset(f1)[t] == multiset(f2)[t] {
        assert own1[t] + sub1[t] == (own1 + sub1)[t] == (own2 + sub2)[t] == own2[t] + sub2[t];
      }
      assert multiset(f1) == multiset(f2);
      forall t ensures multiset(f1)[t] <= (own1 + sub1)[t] {}
      KeyDeterminesSub(multiset(f1), own1 + sub1);
      SortedUnique(f1, f2);
    }
  }

  /** A kSingle dequeue fires the head of what a kAll dequeue of the same heaps fires. */
  lemma SingleIsHeadOfAll(own: multiset<DelayedTask>, sub: multiset<DelayedTask>, now: TimePoint,
                          all: seq<DelayedTask>, own1: multiset<DelayedTask>, sub1: multiset<DelayedTask>,
                          one: seq<DelayedTask>, own2: multiset<DelayedTask>, sub2: multiset<DelayedTask>)
    requires DistinctKeys(own + sub)
    requires Flushed(own, sub, false, now, all, own1, sub1)
    requires Flushed(own, sub, true, now, one, own2, sub2)
    ensures one == if all == [] then [] else [all[0]]
  {
    SingleKeyIsHead(own, sub, now, all, own1, sub1, one, own2, sub2);
    if one != [] {
      assert one[0] in multiset(one) && one[0] in own + sub;
      assert all[0] in multiset(all) && all[0] in own + sub;
    }
  }

  // ---- Where keys are not distinct ----

  /** A task with all but its key erased. */
  function KeyOf(t: DelayedTask): DelayedTask { t.(task := 0) }

  function Keys(s: seq<DelayedTask>): (keys: seq<DelayedTask>)
    ensures |keys| == |s| && forall i | 0 <= i < |s| :: keys[i] == KeyOf(s[i])
  {
    seq(|s|, i requires 0 <= i < |s| => KeyOf(s[i]))
  }

  lemma KeysConcat(a: seq<DelayedTask>, b: seq<DelayedTask>)
    ensures Keys(a + b) == Keys(a) + Keys(b)
  {}

  lemma KeysSplit(a: seq<DelayedTask>, x: DelayedTask, b: seq<DelayedTask>)
    ensures multiset(Keys(a + [x] + b)) == multiset(Keys(a + b)) + multiset{KeyOf(x)}
  {
    KeysConcat(a + [x], b);
    KeysConcat(a, [x]);
    KeysConcat(a, b);
    assert Keys([x]) == [KeyOf(x)];
  }

  lemma TakeOut(a: seq<DelayedTask>, x: DelayedTask, b: seq<DelayedTask>)
    ensures multiset(a + [x] + b) == multiset(a + b) + multiset{x}
  {}

  lemma AddEqual(p: multiset<DelayedTask>, q: multiset<DelayedTask>, x: multiset<DelayedTask>)
    requires p + x == q + x
    ensures p == q
  {
    forall t ensures p[t] == q[t] { assert (p + x)[t] == (q + x)[t]; }
  }

  lemma {:induction false} SameTasksSameKeys(a: seq<DelayedTask>, b: seq<DelayedTask>)
    requires multiset(a) == multiset(b)
    ensures multiset(Keys(a)) == multiset(Keys(b))
    decreases a
  {
    if a == [] {
      assert |multiset(b)| == |b|;
    } else {
      var x := a[0];
      assert x in multiset(b);
      var i :| 0 <= i < |b| && b[i] == x;
      var a1, b0, b1 := a[1..], b[..i], b[i + 1..];
      assert a == [] + [x] + a1 && [] + a1 == a1 && b == b0 + [x] + b1;
      TakeOut([], x, a1);
      TakeOut(b0, x, b1);
      AddEqual(multiset(a1), multiset(b0 + b1), multiset{x});
      SameTasksSameKeys(a1, b0 + b1);
      KeysSplit([], x, a1);
      KeysSplit(b0, x, b1);
    }
  }

  lemma KeysSorted(s: seq<DelayedTask>)
    requires Sorted(s)
    ensures Sorted(Keys(s)) && KeyDetermines(multiset(Keys(s)))
  {
    forall t | t in multiset(Keys(s)) ensures t.task == 0 {}
  }

  /** Whatever the keys are, the keys a flush fires are a function of the union alone. */
  lemma FlushKeysDeterministic(own1: multiset<DelayedTask>, sub1: multiset<DelayedTask>,
                               own2: multiset<DelayedTask>, sub2: multiset<DelayedTask>, single: bool, now: TimePoint,
                               f1: seq<DelayedTask>, own1': multiset<DelayedTask>, sub1': multiset<DelayedTask>,
                               f2: seq<DelayedTask>, own2': multiset<DelayedTask>, sub2': multiset<DelayedTask>)
    requires own1 + sub1 == own2 + sub2
    requires Flushed(own1, sub1, single, now, f1, own1', sub1')
    requires Flushed(own2, sub2, single, now, f2, own2', sub2')
    ensures Keys(f1) == Keys(f2)
  {
    if single {
      if f1 != [] { assert f1[0] in multiset(f1) && f1[0] in own1 + sub1; }
      if f2 != [] { assert f2[0] in multiset(f2) && f2[0] in own2 + sub2; }
    } else {
      TwoHeapsRefineOne(own1, sub1, single, now, f1, own1', sub1');
      TwoHeapsRefineOne(own2, sub2, single, now, f2, own2', sub2');
      forall t ensures multiset(f1)[t] == multiset(f2)[t] {
        assert own1[t] + sub1[t] == (own1 + sub1)[t] == (own2 + sub2)[t] == own2[t] + sub2[t];
      }
      SameTasksSameKeys(f1, f2);
      KeysSorted(f1);
      KeysSorted(f2);
      SortedUnique(Keys(f1), Keys(f2));
    }
  }

  /** Whatever the keys are, a kSingle dequeue fires a task with the key of the head of a kAll dequeue. */
  lemma SingleKeyIsHead(own: multiset<DelayedTask>, sub: multiset<DelayedTask>, now: TimePoint,
                        all: seq<DelayedTask>, own1: multiset<DelayedTask>, sub1: multiset<DelayedTask>,
                        one: seq<DelayedTask>, own2: multiset<DelayedTask>, sub2: multiset<DelayedTask>)
    requires Flushed(own, sub, false, now, all, own1, sub1)
    requires Flushed(own, sub, true, now, one, own2, sub2)
    ensures one == [] <==> all == []
    ensures one != [] ==> |one| == 1 && SameKey(one[0], all[0])
  {
    TwoHeapsRefineOne(own, sub, false, now, all, own1, sub1);
    if one != [] {
      var t := one[0];
      assert t in multiset(one) && t in own + sub && t.targetTime <= now;
      assert multiset(all)[t] == own[t] + sub[t] == (own + sub)[t];
      var k :| 0 <= k < |all| && all[k] == t;
      assert all[0] in multiset(all) && all[0] in own + sub;
      assert k != 0 ==> !Greater(all[0], all[k]);
      assert !Greater(t, all[0]);
    }
    assert all != [] ==> all[0] in multiset(all) && all[0] in own + sub;
  }

  /** A task fires only after every smaller task that was in either heap. */
  lemma FlushBefore(own: multiset<DelayedTask>, sub: multiset<DelayedTask>, single: bool, now: TimePoint,
                    fired: seq<DelayedTask>, own': multiset<DelayedTask>, sub': multiset<DelayedTask>,
                    a: DelayedTask, k: nat)
    requires Flushed(own, sub, single, now, fired, own', sub')
    requires k < |fired| && Greater(fired[k], a) && a in own + sub
    ensures a in fired[..k]
  {}

  // ---- Registration order ----

  const TWO32 := 0x1_0000_0000

  /** The value a 32-bit `atomic_int` holds after `n` increments from zero; also what a `size_t` of `n`
      converts to. */
  function WrapInt(n: nat): (v: int)
    ensures -0x8000_0000 <= v < 0x8000_0000
    ensures (n - v) % TWO32 == 0
  {
    var m := n % TWO32;
    if m < 0x8000_0000 then m else m - TWO32
  }

  /** `v--` on a 32-bit `atomic_int`, which wraps around. */
  function PreviousInt(v: int): int { if v == -0x8000_0000 then 0x7FFF_FFFF else v - 1 }

  /** Conversion of an `int` to a 64-bit `size_t`. */
  function ToSize(v: int): (s: nat)
    requires -0x8000_0000 <= v < 0x8000_0000
  {
    if v >= 0 then v else v + 0x1_0000_0000_0000_0000
  }

  /** `order` of the n-th registered task (counting from zero). */
  function OrderOf(n: nat): nat { ToSize(WrapInt(n)) }

  /** Order numbers compare as registrations within a round of 2^32 do. */
  lemma OrderMonotoneIff(m: nat, n: nat)
    ensures OrderOf(m) < OrderOf(n) <==> m % TWO32 < n % TWO32
    ensures OrderOf(m) == OrderOf(n) <==> m % TWO32 == n % TWO32
    ensures m < n < TWO32 ==> OrderOf(m) < OrderOf(n)
  {
  }

  /** Within the first round, an order number belongs to one registration. */
  lemma SameOrder(m: nat, n: nat)
    requires m < TWO32 && n < TWO32 && OrderOf(m) == OrderOf(n)
    ensures m == n
  {
    OrderMonotoneIff(m, n);
  }

  /** The first registration after a full round sorts before all others of that round. */
  lemma OrderWrapsAround()
    ensures OrderOf(TWO32) < OrderOf(TWO32 - 1)
    ensures forall n: nat | 0 < n < TWO32 :: OrderOf(TWO32) < OrderOf(n)
  {
  }
}
