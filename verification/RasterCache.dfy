/** The raster cache: when a picture is admitted, when it is evicted, how much is rasterised per frame. */
module RasterCaching {
  /** A picture's id and the matrix it is drawn with. */
  datatype Key = Key(picture: nat, matrix: nat)

  /** What happens to the cache. A call to `Prepare` that is turned away leaves no trace. */
  datatype Item = Counted(key: Key) | Rasterised(key: Key, valid: bool) | Swept | Cleared

  // ---- What a history says about a key ----

  /** Counted since the last sweep, or since the cache was cleared. */
  predicate Used(h: seq<Item>, k: Key) {
    if h == [] then false
    else
      var last := h[|h| - 1];
      last == Counted(k) || (!last.Swept? && !last.Cleared? && Used(h[..|h| - 1], k))
  }

  /** How often the key was counted since it was last absent. */
  function Count(h: seq<Item>, k: Key): nat {
    if h == [] then 0
    else
      var init := h[..|h| - 1];
      match h[|h| - 1]
      case Counted(key) => Count(init, k) + if key == k then 1 else 0
      case Rasterised(_, _) => Count(init, k)
      case Swept => if Used(init, k) then Count(init, k) else 0
      case Cleared => 0
  }

  /** The outcome of the last rasterisation since the key was last absent. */
  predicate HasImage(h: seq<Item>, k: Key) {
    if h == [] then false
    else
      var init := h[..|h| - 1];
      match h[|h| - 1]
      case Counted(_) => HasImage(init, k)
      case Rasterised(key, valid) => if key == k then valid else HasImage(init, k)
      case Swept => Used(init, k) && HasImage(init, k)
      case Cleared => false
  }

  /** Rasterisations since the last sweep. Clearing the cache does not reset this. */
  function InFrame(h: seq<Item>): nat {
    if h == [] || h[|h| - 1].Swept? then 0
    else InFrame(h[..|h| - 1]) + if h[|h| - 1].Rasterised? then 1 else 0
  }

  // ---- The same, said without recursion ----

  /** The key is counted between `from` and the sweep at `j`, with no other sweep in between. */
  ghost predicate CountedBefore(h: seq<Item>, k: Key, from: nat, j: nat)
    requires j <= |h|
  {
    exists i | from <= i < j :: h[i] == Counted(k) && SameFrame(h, i, j)
  }

  predicate SameFrame(h: seq<Item>, i: nat, j: nat)
    requires i < j <= |h|
  {
    forall m | i < m < j :: !h[m].Swept?
  }

  /** From `from` on the cache was not cleared and no frame passed without the key being counted. */
  ghost predicate Streak(h: seq<Item>, k: Key, from: nat) {
    from <= |h| && forall j | from <= j < |h| :: !h[j].Cleared? && (h[j].Swept? ==> CountedBefore(h, k, from, j))
  }

  function Occurrences(h: seq<Item>, k: Key, from: nat): nat
    requires from <= |h|
    decreases |h|
  {
    if from == |h| then 0
    else Occurrences(h[..|h| - 1], k, from) + if h[|h| - 1] == Counted(k) then 1 else 0
  }

  lemma CountedBeforePrefix(h: seq<Item>, n: nat, k: Key, from: nat, j: nat)
    requires j <= n <= |h|
    ensures CountedBefore(h[..n], k, from, j) <==> CountedBefore(h, k, from, j)
  {}

  lemma StreakPrefix(h: seq<Item>, k: Key, from: nat)
    requires from < |h|
    ensures Streak(h, k, from) <==> Streak(h[..|h| - 1], k, from) && !h[|h| - 1].Cleared? &&
                                    (h[|h| - 1].Swept? ==> CountedBefore(h, k, from, |h| - 1))
  {
    var n := |h| - 1;
    forall j | from <= j < n
      ensures CountedBefore(h[..n], k, from, j) <==> CountedBefore(h, k, from, j)
    {
      CountedBeforePrefix(h, n, k, from, j);
    }
    assert forall j | from <= j < n :: h[..n][j] == h[j];
  }

  lemma {:induction false} UsedHere(h: seq<Item>, k: Key, i: nat)
    requires i < |h| && h[i] == Counted(k) && SameFrame(h, i, |h|) && forall m | i < m < |h| :: !h[m].Cleared?
    ensures Used(h, k)
  {
    if i == |h| - 1 {
    } else {
      UsedHere(h[..|h| - 1], k, i);
    }
  }

  /** Where the present streak of the key began. */
  function Start(h: seq<Item>, k: Key): (from: nat)
    ensures from <= |h|
  {
    if h == [] then 0
    else
      var init := h[..|h| - 1];
      match h[|h| - 1]
      case Swept => if Used(init, k) then Start(init, k) else |h|
      case Cleared => |h|
      case _ => Start(init, k)
  }

  lemma {:induction false} UsedSinceStart(h: seq<Item>, k: Key)
    requires Used(h, k)
    ensures CountedBefore(h, k, Start(h, k), |h|)
  {
    var n := |h| - 1;
    if h[n] == Counted(k) {
      assert SameFrame(h, n, |h|);
    } else {
      UsedSinceStart(h[..n], k);
      var i :| Start(h[..n], k) <= i < n && h[..n][i] == Counted(k) && SameFrame(h[..n], i, n);
      assert forall m | i < m < n :: h[..n][m] == h[m];
      assert h[i] == Counted(k) && SameFrame(h, i, |h|);
    }
  }

  lemma {:induction false} StartIsStreak(h: seq<Item>, k: Key)
    ensures Streak(h, k, Start(h, k)) && Occurrences(h, k, Start(h, k)) == Count(h, k)
  {
    if h != [] && Start(h, k) < |h| {
      var n := |h| - 1;
      StartIsStreak(h[..n], k);
      StreakPrefix(h, k, Start(h, k));
      if h[n].Swept? {
        UsedSinceStart(h[..n], k);
        CountedBeforePrefix(h, n, k, Start(h, k), n);
      }
    } else if h != [] {
      StartAtEnd(h, k);
    }
  }

  lemma {:induction false} StartAtEnd(h: seq<Item>, k: Key)
    requires Start(h, k) == |h|
    ensures Count(h, k) == 0
  {}

  lemma {:induction false} StreakIsCounted(h: seq<Item>, k: Key, from: nat)
    requires Streak(h, k, from)
    ensures Occurrences(h, k, from) <= Count(h, k)
    decreases |h|
  {
    if from == |h| {
    } else {
      var n := |h| - 1;
      StreakPrefix(h, k, from);
      StreakIsCounted(h[..n], k, from);
      if h[n].Swept? {
        var i :| from <= i < n && h[i] == Counted(k) && SameFrame(h, i, n);
        assert forall m | i < m < n :: h[..n][m] == h[m];
        UsedHere(h[..n], k, i);
      }
    }
  }

  /** The present streak is the longest one. */
  lemma {:induction false} StartIsLeast(h: seq<Item>, k: Key, from: nat)
    requires Streak(h, k, from)
    ensures Start(h, k) <= from
    decreases |h|
  {
    if from == |h| {
    } else {
      var n := |h| - 1;
      StreakPrefix(h, k, from);
      StartIsLeast(h[..n], k, from);
      if h[n].Swept? {
        var i :| from <= i < n && h[i] == Counted(k) && SameFrame(h, i, n);
        assert forall m | i < m < n :: h[..n][m] == h[m];
        UsedHere(h[..n], k, i);
      }
    }
  }

  /** Item `i` is the last rasterisation of the key. */
  predicate LastRasterised(h: seq<Item>, k: Key, i: nat, valid: bool) {
    i < |h| && h[i] == Rasterised(k, valid) && forall j | i < j < |h| && h[j].Rasterised? :: h[j].key != k
  }

  ghost predicate LastWasValid(h: seq<Item>, k: Key) {
    exists i: nat :: Start(h, k) <= i && LastRasterised(h, k, i, true)
  }

  lemma LastSteps(h: seq<Item>, k: Key)
    requires h != []
    ensures var n := |h| - 1;
            LastWasValid(h, k) <==>
            Start(h, k) <= n && if h[n].Rasterised? && h[n].key == k then h[n].valid else LastWasValid(h[..n], k)
  {
    var n := |h| - 1;
    var init := h[..n];
    if i: nat :| Start(h, k) <= i && LastRasterised(h, k, i, true) {
      if i < n { assert LastRasterised(init, k, i, true); }
    }
    if i: nat :| Start(init, k) <= i && LastRasterised(init, k, i, true) {
      assert !(h[n].Rasterised? && h[n].key == k) ==> LastRasterised(h, k, i, true);
    }
    if h[n] == Rasterised(k, true) { assert LastRasterised(h, k, n, true); }
  }

  /** There is an image exactly if the last rasterisation in the present streak gave one. */
  lemma {:induction false} ImageIff(h: seq<Item>, k: Key)
    ensures HasImage(h, k) <==> LastWasValid(h, k)
  {
    if h == [] {
    } else {
      ImageIff(h[..|h| - 1], k);
      LastSteps(h, k);
    }
  }

  ghost predicate CountedInStreak(h: seq<Item>, k: Key, n: nat) {
    exists from: nat :: Streak(h, k, from) && Occurrences(h, k, from) >= n
  }

  /** A key has been counted `n` times exactly when there is a streak, without a clear and without a
      frame lacking the key, in which it was counted `n` times. */
  lemma CountIff(h: seq<Item>, k: Key, n: nat)
    ensures Count(h, k) >= n <==> CountedInStreak(h, k, n)
  {
    StartIsStreak(h, k);
    if CountedInStreak(h, k, n) {
      var from: nat :| Streak(h, k, from) && Occurrences(h, k, from) >= n;
      StreakIsCounted(h, k, from);
    }
  }

  // ---- The cache ----

  datatype Entry = Entry(usedThisFrame: bool, accessCount: nat, imageValid: bool)

  function ClampSize(value: nat, min: nat, max: nat): nat {
    if value > max then max else if value < min then min else value
  }

  /** The entry of a key as its history has it; there is none once a frame passed without the key. */
  ghost predicate TracksKey(cache: map<Key, Entry>, h: seq<Item>, threshold: nat, k: Key) {
    if k in cache then
      cache[k] == Entry(Used(h, k), if Count(h, k) < threshold then Count(h, k) else threshold, HasImage(h, k))
    else !Used(h, k) && Count(h, k) == 0 && !HasImage(h, k)
  }

  ghost predicate Tracks(cache: map<Key, Entry>, h: seq<Item>, threshold: nat) {
    forall k :: TracksKey(cache, h, threshold, k)
  }

  /** Every frame keeps to the limit; every rasterisation is of a key that has been counted often
      enough, and has no valid image. */
  ghost predicate Lawful(h: seq<Item>, threshold: nat, limit: nat) {
    h == [] ||
    var init, last := h[..|h| - 1], h[|h| - 1];
    && Lawful(init, threshold, limit)
    && InFrame(h) <= limit
    && (last.Rasterised? ==> 0 < threshold <= Count(init, last.key) && !HasImage(init, last.key))
  }

  function Survivors(cache: map<Key, Entry>): map<Key, Entry> {
    map k | k in cache && cache[k].usedThisFrame :: cache[k].(usedThisFrame := false)
  }

  lemma TracksPush(cache: map<Key, Entry>, h: seq<Item>, threshold: nat, item: Item, next: map<Key, Entry>)
    requires Tracks(cache, h, threshold)
    requires match item
             case Counted(key) =>
               var was := if key in cache then cache[key] else Entry(false, 0, false);
               next == cache[key := Entry(true, ClampSize(was.accessCount + 1, 0, threshold), was.imageValid)]
             case Rasterised(key, valid) =>
               key in cache && next == cache[key := cache[key].(imageValid := valid)]
             case Swept => next == Survivors(cache)
             case Cleared => next == map[]
    ensures Tracks(next, h + [item], threshold)
  {
    assert (h + [item])[..|h|] == h;
    forall k ensures TracksKey(next, h + [item], threshold, k) {
      assert TracksKey(cache, h, threshold, k);
    }
  }

  lemma LawfulPush(h: seq<Item>, item: Item, threshold: nat, limit: nat)
    requires Lawful(h, threshold, limit)
    requires item.Rasterised? ==> InFrame(h) < limit && 0 < threshold <= Count(h, item.key) && !HasImage(h, item.key)
    ensures Lawful(h + [item], threshold, limit)
    ensures InFrame(h + [item]) == if item.Swept? then 0 else InFrame(h) + if item.Rasterised? then 1 else 0
  {}

  lemma LawfulInFrame(h: seq<Item>, threshold: nat, limit: nat)
    requires Lawful(h, threshold, limit)
    ensures InFrame(h) <= limit
  {}

  // ---- What lawful histories have in common ----

  function Rasterisations(h: seq<Item>, a: nat, b: nat): nat
    requires a <= b <= |h|
    decreases b
  {
    if a == b then 0 else Rasterisations(h, a, b - 1) + if h[b - 1].Rasterised? then 1 else 0
  }

  lemma {:induction false} LawfulPrefix(h: seq<Item>, b: nat, threshold: nat, limit: nat)
    requires Lawful(h, threshold, limit) && b <= |h|
    ensures Lawful(h[..b], threshold, limit)
  {
    if b < |h| {
      LawfulPrefix(h[..|h| - 1], b, threshold, limit);
      assert h[..|h| - 1][..b] == h[..b];
    } else {
      assert h[..b] == h;
    }
  }

  lemma {:induction false} WindowInFrame(h: seq<Item>, a: nat, b: nat)
    requires a <= b <= |h| && forall j | a <= j < b :: !h[j].Swept?
    ensures Rasterisations(h, a, b) <= InFrame(h[..b])
    decreases b
  {
    if a == b {
    } else {
      WindowInFrame(h, a, b - 1);
      assert h[..b][..b - 1] == h[..b - 1];
    }
  }

  /** No stretch without a sweep has more rasterisations than the limit. */
  lemma FrameWithinLimit(h: seq<Item>, a: nat, b: nat, threshold: nat, limit: nat)
    requires Lawful(h, threshold, limit)
    requires a <= b <= |h| && forall j | a <= j < b :: !h[j].Swept?
    ensures Rasterisations(h, a, b) <= limit
  {
    LawfulPrefix(h, b, threshold, limit);
    WindowInFrame(h, a, b);
    LawfulInFrame(h[..b], threshold, limit);
  }

  lemma {:induction false} ImageKept(h: seq<Item>, k: Key, i: nat, threshold: nat, limit: nat)
    requires Lawful(h, threshold, limit) && i < |h| && h[i] == Rasterised(k, true) && Start(h, k) <= i
    ensures HasImage(h, k)
  {
    if i == |h| - 1 {
    } else {
      ImageKept(h[..|h| - 1], k, i, threshold, limit);
    }
  }

  /** A picture is rasterised again only if an attempt failed or it has meanwhile been absent. */
  lemma RasterisedOncePerStreak(h: seq<Item>, k: Key, i: nat, j: nat, threshold: nat, limit: nat)
    requires Lawful(h, threshold, limit) && i < j < |h|
    requires h[i] == Rasterised(k, true) && h[j].Rasterised? && h[j].key == k
    ensures i < Start(h[..j], k)
  {
    LawfulPrefix(h, j + 1, threshold, limit);
    LawfulPrefix(h, j, threshold, limit);
    assert h[..j + 1][..j] == h[..j] && h[..j][i] == h[i];
    if Start(h[..j], k) <= i { ImageKept(h[..j], k, i, threshold, limit); }
  }

  class RasterCache {
    const accessThreshold: nat
    const pictureCacheLimitPerFrame: nat
    var pictureCachedThisFrame: nat
    var pictureCache: map<Key, Entry>
    ghost var history: seq<Item>

    ghost predicate Valid()
      reads this
    {
      && Tracks(pictureCache, history, accessThreshold)
      && Lawful(history, accessThreshold, pictureCacheLimitPerFrame)
      && pictureCachedThisFrame == InFrame(history)
    }

    constructor (threshold: nat, limit: nat)
      ensures Valid() && history == [] && accessThreshold == threshold && pictureCacheLimitPerFrame == limit
    {
      accessThreshold, pictureCacheLimitPerFrame := threshold, limit;
      pictureCachedThisFrame, pictureCache, history := 0, map[], [];
    }

    /** `worthwhile` and `invertible` are the two tests made on the picture and its matrix; `rasterises`
        says whether a surface to draw on can be had. */
    method Prepare(key: Key, worthwhile: bool, invertible: bool, rasterises: bool) returns (generated: bool)
      requires Valid()
      modifies this
      ensures Valid()
      ensures var counted := old(InFrame(history)) < pictureCacheLimitPerFrame && worthwhile && invertible;
              var h := old(history) + [Counted(key)];
              && (generated <==> counted && 0 < accessThreshold <= Count(h, key))
              && history == if !counted then old(history)
                            else if generated && !HasImage(h, key) then h + [Rasterised(key, rasterises)]
                            else h
      ensures generated ==> (HasImage(history, key) <==> old(HasImage(history, key)) || rasterises)
    {
      ghost var before := history;
      if pictureCachedThisFrame >= pictureCacheLimitPerFrame {
        return false;
      }
      if !worthwhile {
        return false;
      }
      if !invertible {
        return false;
      }
      CountKey(key);
      assert history[..|before|] == before;
      assert TracksKey(pictureCache, history, accessThreshold, key);
      if pictureCache[key].accessCount < accessThreshold || accessThreshold == 0 {
        return false;
      }
      if !pictureCache[key].imageValid {
        before := history;
        Rasterise(key, rasterises);
        assert history[..|before|] == before;
      }
      return true;
    }

    /** Finds or makes the entry, and counts the access. */
    method CountKey(key: Key)
      requires Valid()
      modifies this
      ensures Valid() && history == old(history) + [Counted(key)] && key in pictureCache
      ensures InFrame(history) == old(InFrame(history))
    {
      ghost var cache := pictureCache;
      var entry := if key in pictureCache then pictureCache[key] else Entry(false, 0, false);
      entry := entry.(accessCount := ClampSize(entry.accessCount + 1, 0, accessThreshold));
      entry := entry.(usedThisFrame := true);
      pictureCache := pictureCache[key := entry];
      TracksPush(cache, history, accessThreshold, Counted(key), pictureCache);
      LawfulPush(history, Counted(key), accessThreshold, pictureCacheLimitPerFrame);
      history := history + [Counted(key)];
    }

    method Rasterise(key: Key, rasterises: bool)
      requires Valid() && key in pictureCache && InFrame(history) < pictureCacheLimitPerFrame
      requires 0 < accessThreshold <= Count(history, key) && !HasImage(history, key)
      modifies this
      ensures Valid() && history == old(history) + [Rasterised(key, rasterises)]
    {
      ghost var cache := pictureCache;
      pictureCache := pictureCache[key := pictureCache[key].(imageValid := rasterises)];
      pictureCachedThisFrame := pictureCachedThisFrame + 1;
      TracksPush(cache, history, accessThreshold, Rasterised(key, rasterises), pictureCache);
      LawfulPush(history, Rasterised(key, rasterises), accessThreshold, pictureCacheLimitPerFrame);
      history := history + [Rasterised(key, rasterises)];
    }

    /** Whether there is an image to draw for the key. */
    method Get(key: Key) returns (valid: bool)
      requires Valid()
      ensures valid <==> HasImage(history, key)
    {
      assert TracksKey(pictureCache, history, accessThreshold, key);
      valid := key in pictureCache && pictureCache[key].imageValid;
    }

    method SweepAfterFrame()
      requires Valid()
      modifies this
      ensures Valid() && history == old(history) + [Swept]
    {
      ghost var cache := pictureCache;
      pictureCache := SweepOneCache(pictureCache);
      pictureCachedThisFrame := 0;
      TracksPush(cache, history, accessThreshold, Swept, pictureCache);
      LawfulPush(history, Swept, accessThreshold, pictureCacheLimitPerFrame);
      history := history + [Swept];
    }

    method Clear()
      requires Valid()
      modifies this
      ensures Valid() && history == old(history) + [Cleared]
    {
      ghost var cache := pictureCache;
      pictureCache := map[];
      TracksPush(cache, history, accessThreshold, Cleared, pictureCache);
      LawfulPush(history, Cleared, accessThreshold, pictureCacheLimitPerFrame);
      history := history + [Cleared];
    }
  }

  /** The two loops of a sweep: mark every entry unused and note the dead ones, then erase those. */
  method SweepOneCache(cache: map<Key, Entry>) returns (swept: map<Key, Entry>)
    ensures swept == Survivors(cache)
  {
    swept := cache;
    var dead := {};
    var todo := cache.Keys;
    while todo != {}
      invariant todo <= cache.Keys && swept.Keys == cache.Keys
      invariant dead == set k | k in cache.Keys - todo && !cache[k].usedThisFrame
      invariant forall k | k in cache.Keys ::
                  swept[k] == if k in todo then cache[k] else cache[k].(usedThisFrame := false)
      decreases |todo|
    {
      var k :| k in todo;
      if !swept[k].usedThisFrame {
        dead := dead + {k};
      }
      swept := swept[k := swept[k].(usedThisFrame := false)];
      todo := todo - {k};
    }
    swept := EraseAll(swept, dead);
  }

  method EraseAll(cache: map<Key, Entry>, dead: set<Key>) returns (rest: map<Key, Entry>)
    ensures rest == cache - dead
  {
    rest := cache;
    var todo := dead;
    while todo != {}
      invariant todo <= dead && rest == cache - (dead - todo)
      decreases |todo|
    {
      var k :| k in todo;
      rest := rest - {k};
      todo := todo - {k};
    }
    assert dead - {} == dead;
  }
}
