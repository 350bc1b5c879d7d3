/** Operations on candle sequences used while assembling the fetched series:
    the stable sort by start time (`sort_by_key`), the tail filter
    (`retain`), truncation, the per-batch merge of `get_kline` and the final
    `dedup_by_key`. */
module Series {
  import opened Klines

  /** Non-decreasing by start time. */
  predicate Sorted(s: seq<Kline>) {
    forall i, j :: 0 <= i < j < |s| ==> s[i].startTime <= s[j].startTime
  }

  /** Strictly increasing by start time: sorted with no repeated timestamp. */
  predicate StrictlyAscending(s: seq<Kline>) {
    forall i, j :: 0 <= i < j < |s| ==> s[i].startTime < s[j].startTime
  }

  /** The start times present in a sequence. */
  function Keys(s: seq<Kline>): set<int> {
    set i | 0 <= i < |s| :: s[i].startTime as int
  }

  lemma KeysCons(x: Kline, s: seq<Kline>)
    ensures Keys([x] + s) == {x.startTime as int} + Keys(s)
  {
    var c := [x] + s;
    forall t | t in Keys(c) ensures t in {x.startTime as int} + Keys(s) {
      var i :| 0 <= i < |c| && c[i].startTime == t;
      if i > 0 {
        assert c[i] == s[i - 1];
      }
    }
    assert c[0] == x;
    forall t | t in Keys(s) ensures t in Keys(c) {
      var i :| 0 <= i < |s| && s[i].startTime == t;
      assert c[i + 1] == s[i];
    }
  }

  /** The candles of `s` stamped `t`, in their order in `s`. */
  function WithKey(s: seq<Kline>, t: int): (r: seq<Kline>)
  {
    if |s| == 0 then []
    else (if s[0].startTime == t then [s[0]] else []) + WithKey(s[1..], t)
  }

  /** Every candle of `s` is newer than `t`. */
  predicate AllNewerThan(s: seq<Kline>, t: int) {
    forall i :: 0 <= i < |s| ==> s[i].startTime > t
  }

  /** Every candle of `s` starts at `last` or later. */
  predicate AllFromTime(s: seq<Kline>, last: int) {
    forall i :: 0 <= i < |s| ==> s[i].startTime >= last
  }

  /** Every candle of `s` is one of the candles of `pool`. */
  predicate AllFrom(s: seq<Kline>, pool: seq<Kline>) {
    forall i :: 0 <= i < |s| ==> s[i] in pool
  }

  /** `s` takes candles out of `pool` earliest first: whatever of `pool` it
      leaves out is no earlier than anything it holds. */
  predicate EarliestOf(s: seq<Kline>, pool: seq<Kline>) {
    forall k, i :: k in multiset(pool) - multiset(s) && 0 <= i < |s| ==> s[i].startTime <= k.startTime
  }

  function Min(a: int, b: int): int {
    if a <= b then a else b
  }

  // ---------------------------------------------------------------------------
  // Stable sort by start time
  // ---------------------------------------------------------------------------

  /** Places `k` in front of the first element that is not earlier than it. */
  function Insert(k: Kline, s: seq<Kline>): (r: seq<Kline>)
    requires Sorted(s)
    ensures |r| == |s| + 1
    ensures r[0] == k || (|s| > 0 && r[0] == s[0])
    ensures multiset(r) == multiset(s) + multiset{k}
    ensures Sorted(r)
  {
    if |s| == 0 || k.startTime <= s[0].startTime then [k] + s
    else
      var rest := Insert(k, s[1..]);
      assert s == [s[0]] + s[1..];
      SortedCons(s[0], rest);
      [s[0]] + rest
  }

  /** A candle no later than the head of a sorted sequence can lead it. */
  lemma SortedCons(x: Kline, s: seq<Kline>)
    requires Sorted(s)
    requires |s| > 0 ==> x.startTime <= s[0].startTime
    ensures Sorted([x] + s)
  {
    var c := [x] + s;
    forall i, j | 0 <= i < j < |c| ensures c[i].startTime <= c[j].startTime {
      if i == 0 {
        assert c[j] == s[j - 1];
      } else {
        assert c[i] == s[i - 1] && c[j] == s[j - 1];
      }
    }
  }

  /** `sort_by_key(|k| k.start_time)`: a stable sort, so candles with equal
      start times keep their relative order. */
  function SortByStartTime(s: seq<Kline>): (r: seq<Kline>)
    ensures Sorted(r)
    ensures multiset(r) == multiset(s)
    ensures |r| == |s|
  {
    if |s| == 0 then []
    else
      assert s == [s[0]] + s[1..];
      Insert(s[0], SortByStartTime(s[1..]))
  }

  lemma WithKeyCons(x: Kline, s: seq<Kline>, t: int)
    ensures WithKey([x] + s, t) == (if x.startTime == t then [x] else []) + WithKey(s, t)
  {
    assert ([x] + s)[0] == x && ([x] + s)[1..] == s;
  }

  /** Picking out one timestamp distributes over concatenation. */
  lemma {:induction false} WithKeyAppend(a: seq<Kline>, b: seq<Kline>, t: int)
    ensures WithKey(a + b, t) == WithKey(a, t) + WithKey(b, t)
  {
    if |a| > 0 {
      WithKeyAppend(a[1..], b, t);
      assert a == [a[0]] + a[1..];
      assert a + b == [a[0]] + (a[1..] + b);
      WithKeyCons(a[0], a[1..] + b, t);
      WithKeyCons(a[0], a[1..], t);
      var h := if a[0].startTime == t then [a[0]] else [];
      assert WithKey(a + b, t) == h + (WithKey(a[1..], t) + WithKey(b, t));
      assert WithKey(a, t) == h + WithKey(a[1..], t);
    } else {
      assert a + b == b;
    }
  }

  /** A prefix of `s` holds, for each timestamp, a prefix of the candles of
      `s` with that timestamp. */
  lemma WithKeyOfPrefix(s: seq<Kline>, n: nat, t: int)
    requires n <= |s|
    ensures WithKey(s[..n], t) <= WithKey(s, t)
  {
    assert s == s[..n] + s[n..];
    WithKeyAppend(s[..n], s[n..], t);
  }

  /** Inserting `k` puts it ahead of every candle with its timestamp. */
  lemma {:induction false} InsertKeepsKeyOrder(k: Kline, s: seq<Kline>, t: int)
    requires Sorted(s)
    ensures WithKey(Insert(k, s), t) == (if k.startTime == t then [k] else []) + WithKey(s, t)
  {
    if |s| == 0 || k.startTime <= s[0].startTime {
      WithKeyCons(k, s, t);
    } else {
      var rest := Insert(k, s[1..]);
      assert Insert(k, s) == [s[0]] + rest;
      InsertKeepsKeyOrder(k, s[1..], t);
      WithKeyCons(s[0], rest, t);
      WithKeyCons(s[0], s[1..], t);
      assert s == [s[0]] + s[1..];
      assert !(k.startTime == t && s[0].startTime == t);
    }
  }

  /** Stability: for every timestamp, the candles carrying it appear in the
      sorted output in the order they had in the input. */
  lemma {:induction false} SortIsStable(s: seq<Kline>, t: int)
    ensures WithKey(SortByStartTime(s), t) == WithKey(s, t)
  {
    if |s| > 0 {
      SortIsStable(s[1..], t);
      InsertKeepsKeyOrder(s[0], SortByStartTime(s[1..]), t);
    }
  }

  /** Sorting an already sorted sequence changes nothing, so the final sort of
      `get_kline` is a no-op on the accumulated series. */
  lemma {:induction false} SortOfSortedIsIdentity(s: seq<Kline>)
    requires Sorted(s)
    ensures SortByStartTime(s) == s
  {
    if |s| > 0 {
      SortOfSortedIsIdentity(s[1..]);
      assert s == [s[0]] + s[1..];
    }
  }

  // ---------------------------------------------------------------------------
  // Tail filter and truncation
  // ---------------------------------------------------------------------------

  /** `retain(|k| k.start_time > t)`: keeps, in order, the candles newer than `t`. */
  function RetainAfter(s: seq<Kline>, t: int): (r: seq<Kline>)
    ensures |r| <= |s|
    ensures forall i :: 0 <= i < |r| ==> r[i].startTime > t && r[i] in s
    ensures Sorted(s) ==> Sorted(r)
  {
    if |s| == 0 then []
    else
      var rest := RetainAfter(s[1..], t);
      assert s == [s[0]] + s[1..];
      if s[0].startTime > t then
        assert Sorted(s) ==> Sorted([s[0]] + rest) by {
          if Sorted(s) && |rest| > 0 {
            assert rest[0] in s[1..];
            SortedCons(s[0], rest);
          }
        }
        [s[0]] + rest
      else
        rest
  }

  /** The filter keeps order: for every timestamp newer than `t` it keeps
      exactly the input's candles carrying it, in their input order, and for
      any other timestamp it keeps none. */
  lemma {:induction false} RetainAfterKeepsKeyOrder(s: seq<Kline>, t: int)
    ensures forall u :: WithKey(RetainAfter(s, t), u) == if u > t then WithKey(s, u) else []
  {
    if |s| > 0 {
      RetainAfterKeepsKeyOrder(s[1..], t);
      RetainStepKeepsKeyOrder(s, t, RetainAfter(s[1..], t), RetainAfter(s, t));
    }
  }

  /** One step of the filter, timestamp by timestamp. */
  lemma RetainStepKeepsKeyOrder(s: seq<Kline>, t: int, rest: seq<Kline>, r: seq<Kline>)
    requires |s| > 0
    requires forall u :: WithKey(rest, u) == if u > t then WithKey(s[1..], u) else []
    requires r == (if s[0].startTime > t then [s[0]] + rest else rest)
    ensures forall u :: WithKey(r, u) == if u > t then WithKey(s, u) else []
  {
    assert s == [s[0]] + s[1..];
    forall u ensures WithKey(r, u) == if u > t then WithKey(s, u) else [] {
      WithKeyCons(s[0], s[1..], u);
      if s[0].startTime > t {
        WithKeyCons(s[0], rest, u);
      }
    }
  }

  /** The filter keeps a head newer than `t` in front of what it keeps of the tail. */
  lemma RetainAfterKeepsNewerHead(s: seq<Kline>, t: int)
    requires |s| > 0 && s[0].startTime > t
    ensures RetainAfter(s, t) == [s[0]] + RetainAfter(s[1..], t)
  {
  }

  /** The filter keeps every candle of a batch that is all newer than `t`. */
  lemma {:induction false} RetainAllNewer(s: seq<Kline>, t: int)
    requires AllNewerThan(s, t)
    ensures RetainAfter(s, t) == s
  {
    if |s| > 0 {
      var tail := s[1..];
      assert AllNewerThan(tail, t) by {
        forall i | 0 <= i < |tail| ensures tail[i].startTime > t {
          assert tail[i] == s[i + 1];
        }
      }
      RetainAllNewer(tail, t);
      RetainAfterKeepsNewerHead(s, t);
    }
  }

  /** `Vec::truncate(n)`: the first `n` elements, or all of them if fewer. */
  function Truncate(s: seq<Kline>, n: nat): (r: seq<Kline>)
    ensures |r| == Min(|s|, n)
    ensures r == s[..|r|]
  {
    if |s| > n then s[..n] else s
  }

  // ---------------------------------------------------------------------------
  // One pagination merge step
  // ---------------------------------------------------------------------------

  /** The candles of `batch` the merge may append: all of them while nothing is
      held yet, otherwise those strictly newer than the held tail. */
  function Eligible(held: seq<Kline>, batch: seq<Kline>): seq<Kline> {
    if |held| == 0 then batch else RetainAfter(batch, held[|held| - 1].startTime)
  }

  /** The filter keeps every copy of a newer candle and no copy of any other. */
  lemma {:induction false} RetainAfterCounts(s: seq<Kline>, t: int)
    ensures forall k :: multiset(RetainAfter(s, t))[k] == if k.startTime > t then multiset(s)[k] else 0
  {
    if |s| > 0 {
      RetainAfterCounts(s[1..], t);
      assert s == [s[0]] + s[1..];
      var head := if s[0].startTime > t then [s[0]] else [];
      assert RetainAfter(s, t) == head + RetainAfter(s[1..], t);
      assert multiset(RetainAfter(s, t)) == multiset(head) + multiset(RetainAfter(s[1..], t));
    }
  }

  /** What the filter keeps depends only on which candles it is given, not on
      their order. */
  lemma RetainAfterOfPermutation(a: seq<Kline>, b: seq<Kline>, t: int)
    requires multiset(a) == multiset(b)
    ensures multiset(RetainAfter(a, t)) == multiset(RetainAfter(b, t))
  {
    RetainAfterCounts(a, t);
    RetainAfterCounts(b, t);
    var ma, mb := multiset(RetainAfter(a, t)), multiset(RetainAfter(b, t));
    assert forall k :: ma[k] == mb[k];
  }

  /** In a sorted sequence, whatever a prefix leaves out is no earlier than
      anything the prefix keeps. */
  lemma PrefixKeepsEarliest(s: seq<Kline>, n: nat)
    requires Sorted(s) && n <= |s|
    ensures forall k, i :: k in multiset(s) - multiset(s[..n]) && 0 <= i < n ==> s[i].startTime <= k.startTime
  {
    assert s == s[..n] + s[n..];
    assert multiset(s) - multiset(s[..n]) == multiset(s[n..]);
    forall k, i | k in multiset(s) - multiset(s[..n]) && 0 <= i < n
      ensures s[i].startTime <= k.startTime
    {
      assert k in s[n..];
      var j :| n <= j < |s| && s[j] == k;
    }
  }

  /** Appending candles newer than a sorted prefix's tail keeps it sorted. */
  lemma SortedAppend(a: seq<Kline>, b: seq<Kline>)
    requires Sorted(a) && Sorted(b)
    requires |a| > 0 ==> AllNewerThan(b, a[|a| - 1].startTime)
    ensures Sorted(a + b)
  {
    var c := a + b;
    forall i, j | 0 <= i < j < |c| ensures c[i].startTime <= c[j].startTime {
      if j < |a| {
        assert c[i] == a[i] && c[j] == a[j];
      } else if i >= |a| {
        assert c[i] == b[i - |a|] && c[j] == b[j - |a|];
      } else {
        assert c[i] == a[i] && c[j] == b[j - |a|];
        assert a[i].startTime <= a[|a| - 1].startTime;
      }
    }
  }

  /** The batch sorted by start time, less what is not newer than the held
      tail. */
  function Newer(held: seq<Kline>, batch: seq<Kline>): seq<Kline> {
    if |held| > 0 then RetainAfter(SortByStartTime(batch), held[|held| - 1].startTime) else SortByStartTime(batch)
  }

  /** The part of a batch the merge appends: the sorted newer candles, cut to
      `space`. */
  function Appended(held: seq<Kline>, batch: seq<Kline>, space: nat): seq<Kline> {
    Truncate(Newer(held, batch), space)
  }

  /** One round of `get_kline` after a non-empty batch arrives: sort the batch,
      drop what is not newer than the held tail, cut it to the space left under
      `maxRecords` and append it. What the merge guarantees is stated by
      `MergeBatchTakesEarliest`, `MergeBatchKeepsOrder` and
      `MergeBatchGrowsOrKeeps`. */
  function MergeBatch(held: seq<Kline>, batch: seq<Kline>, maxRecords: nat): (r: seq<Kline>)
    requires |held| < maxRecords
    ensures |held| <= |r| <= maxRecords && r[..|held|] == held
  {
    var appended := Appended(held, batch, maxRecords - |held|);
    var r := held + appended;
    assert r[..|held|] == held;
    r
  }

  /** The merge either appends something or leaves the series as it was. */
  lemma MergeBatchGrowsOrKeeps(held: seq<Kline>, batch: seq<Kline>, maxRecords: nat)
    requires |held| < maxRecords
    ensures var r := MergeBatch(held, batch, maxRecords);
      |r| > |held| || r == held
  {
    var r := MergeBatch(held, batch, maxRecords);
    if |r| <= |held| {
      assert r == r[..|held|];
    }
  }

  /** The merge appends as many eligible candles as fit under `maxRecords`,
      and they are the earliest of the eligible ones. */
  lemma MergeBatchTakesEarliest(held: seq<Kline>, batch: seq<Kline>, maxRecords: nat)
    requires |held| < maxRecords
    ensures var r := MergeBatch(held, batch, maxRecords);
      && |r| - |held| == Min(maxRecords - |held|, |Eligible(held, batch)|)
      && multiset(r[|held|..]) <= multiset(Eligible(held, batch))
      && EarliestOf(r[|held|..], Eligible(held, batch))
  {
    var space := maxRecords - |held|;
    AppendedCount(held, batch, space);
    AppendedIsEarliest(held, batch, space);
    assert MergeBatch(held, batch, maxRecords)[|held|..] == Appended(held, batch, space);
  }

  /** What the merge appends comes from the batch, is newer than the held
      tail and is in order, so a sorted series stays sorted. */
  lemma MergeBatchKeepsOrder(held: seq<Kline>, batch: seq<Kline>, maxRecords: nat)
    requires |held| < maxRecords
    ensures var r := MergeBatch(held, batch, maxRecords);
      && AllFrom(r[|held|..], batch)
      && (|held| > 0 ==> AllNewerThan(r[|held|..], held[|held| - 1].startTime))
      && Sorted(r[|held|..])
      && (Sorted(held) ==> Sorted(r))
      && (forall u :: WithKey(r[|held|..], u) <= WithKey(Eligible(held, batch), u))
  {
    var space := maxRecords - |held|;
    var appended := Appended(held, batch, space);
    AppendedFromBatch(held, batch, space);
    AppendedSortedAndNewer(held, batch, space);
    AppendedKeepsKeyOrder(held, batch, space);
    assert MergeBatch(held, batch, maxRecords)[|held|..] == appended;
    if Sorted(held) {
      SortedAppend(held, appended);
    }
  }

  /** The sorted newer candles are the eligible ones, in start-time order. */
  lemma NewerIsEligible(held: seq<Kline>, batch: seq<Kline>)
    ensures Sorted(Newer(held, batch))
    ensures multiset(Newer(held, batch)) == multiset(Eligible(held, batch))
    ensures |Newer(held, batch)| == |Eligible(held, batch)|
  {
    var newer := Newer(held, batch);
    if |held| > 0 {
      RetainAfterOfPermutation(SortByStartTime(batch), batch, held[|held| - 1].startTime);
    }
    assert |multiset(newer)| == |multiset(Eligible(held, batch))|;
  }

  /** For each timestamp, the sorted newer candles carrying it are exactly
      the eligible ones carrying it, in batch order. */
  lemma NewerKeepsKeyOrder(held: seq<Kline>, batch: seq<Kline>, t: int)
    ensures WithKey(Newer(held, batch), t) == WithKey(Eligible(held, batch), t)
  {
    SortIsStable(batch, t);
    if |held| > 0 {
      var tail := held[|held| - 1].startTime;
      RetainAfterKeepsKeyOrder(SortByStartTime(batch), tail);
      RetainAfterKeepsKeyOrder(batch, tail);
    }
  }

  lemma AppendedKeepsKeyOrder(held: seq<Kline>, batch: seq<Kline>, space: nat)
    ensures forall u :: WithKey(Appended(held, batch, space), u) <= WithKey(Eligible(held, batch), u)
  {
    var newer := Newer(held, batch);
    var a := Appended(held, batch, space);
    forall u ensures WithKey(a, u) <= WithKey(Eligible(held, batch), u) {
      WithKeyOfPrefix(newer, |a|, u);
      NewerKeepsKeyOrder(held, batch, u);
    }
  }

  lemma AppendedCount(held: seq<Kline>, batch: seq<Kline>, space: nat)
    ensures |Appended(held, batch, space)| == Min(space, |Eligible(held, batch)|)
    ensures multiset(Appended(held, batch, space)) <= multiset(Eligible(held, batch))
  {
    var newer := Newer(held, batch);
    var a := Appended(held, batch, space);
    NewerIsEligible(held, batch);
    assert newer == a + newer[|a|..];
  }

  lemma AppendedFromBatch(held: seq<Kline>, batch: seq<Kline>, space: nat)
    ensures AllFrom(Appended(held, batch, space), batch)
  {
    var newer := Newer(held, batch);
    var a := Appended(held, batch, space);
    forall i | 0 <= i < |a| ensures a[i] in batch {
      assert a[i] == newer[i];
      assert a[i] in SortByStartTime(batch);
      assert a[i] in multiset(SortByStartTime(batch));
    }
  }

  lemma AppendedSortedAndNewer(held: seq<Kline>, batch: seq<Kline>, space: nat)
    ensures Sorted(Appended(held, batch, space))
    ensures |held| > 0 ==> AllNewerThan(Appended(held, batch, space), held[|held| - 1].startTime)
  {
    var newer := Newer(held, batch);
    var a := Appended(held, batch, space);
    NewerIsEligible(held, batch);
    assert forall i :: 0 <= i < |a| ==> a[i] == newer[i];
  }

  lemma AppendedIsEarliest(held: seq<Kline>, batch: seq<Kline>, space: nat)
    ensures EarliestOf(Appended(held, batch, space), Eligible(held, batch))
  {
    var newer := Newer(held, batch);
    NewerIsEligible(held, batch);
    var a := Appended(held, batch, space);
    PrefixKeepsEarliest(newer, |a|);
    assert EarliestOf(a, newer);
    assert multiset(newer) == multiset(Eligible(held, batch));
  }

  // ---------------------------------------------------------------------------
  // Final de-duplication
  // ---------------------------------------------------------------------------

  /** `dedup_by_key` continued after a retained candle stamped `last`: a
      candle is dropped when it repeats the timestamp of the candle retained
      before it. */
  function DedupAfter(s: seq<Kline>, last: int): (r: seq<Kline>)
    ensures |r| <= |s|
    ensures AllFrom(r, s)
  {
    if |s| == 0 then []
    else if s[0].startTime == last then
      assert s == [s[0]] + s[1..];
      DedupAfter(s[1..], last)
    else
      var rest := DedupAfter(s[1..], s[0].startTime);
      assert s == [s[0]] + s[1..];
      assert forall i :: 1 <= i < |rest| + 1 ==> ([s[0]] + rest)[i] == rest[i - 1];
      [s[0]] + rest
  }

  /** A candle earlier than everything in a strictly ascending sequence can
      lead it. */
  lemma StrictlyAscendingCons(x: Kline, s: seq<Kline>)
    requires StrictlyAscending(s) && AllNewerThan(s, x.startTime)
    ensures StrictlyAscending([x] + s)
  {
    var c := [x] + s;
    forall i, j | 0 <= i < j < |c| ensures c[i].startTime < c[j].startTime {
      assert c[j] == s[j - 1];
      if i > 0 {
        assert c[i] == s[i - 1];
      }
    }
  }

  /** The tail of a sorted sequence is sorted and never goes below its head. */
  lemma SortedTail(s: seq<Kline>)
    requires Sorted(s) && |s| > 0
    ensures Sorted(s[1..]) && AllFromTime(s[1..], s[0].startTime)
  {
  }

  /** On sorted input that never goes below `last`, the continued
      de-duplication is strictly ascending and stays above `last`. */
  lemma {:induction false} DedupAfterOfSorted(s: seq<Kline>, last: int)
    requires Sorted(s) && AllFromTime(s, last)
    ensures StrictlyAscending(DedupAfter(s, last))
    ensures AllNewerThan(DedupAfter(s, last), last)
  {
    if |s| > 0 {
      SortedTail(s);
      if s[0].startTime == last {
        DedupAfterOfSorted(s[1..], last);
      } else {
        var rest := DedupAfter(s[1..], s[0].startTime);
        DedupAfterOfSorted(s[1..], s[0].startTime);
        StrictlyAscendingCons(s[0], rest);
        assert forall i :: 1 <= i < |rest| + 1 ==> ([s[0]] + rest)[i] == rest[i - 1];
      }
    }
  }

  /** On input that never goes below `last`, the continued de-duplication
      keeps every timestamp other than `last`. */
  lemma {:induction false} DedupAfterKeys(s: seq<Kline>, last: int)
    requires Sorted(s) && AllFromTime(s, last)
    ensures Keys(DedupAfter(s, last)) == Keys(s) - {last}
  {
    if |s| > 0 {
      SortedTail(s);
      assert s == [s[0]] + s[1..];
      KeysCons(s[0], s[1..]);
      if s[0].startTime == last {
        DedupAfterKeys(s[1..], last);
      } else {
        var rest := DedupAfter(s[1..], s[0].startTime);
        DedupAfterKeys(s[1..], s[0].startTime);
        KeysCons(s[0], rest);
      }
    }
  }

  /** `s[j]` opens a run of equal timestamps: it comes first, or the candle
      before it is stamped differently. */
  predicate OpensRun(s: seq<Kline>, j: int)
    requires 0 <= j < |s|
  {
    j == 0 || s[j - 1].startTime != s[j].startTime
  }

  /** Every candle of `r` is a candle of `s` that opens a run of equal
      timestamps there. */
  predicate KeepsRunOpeners(s: seq<Kline>, r: seq<Kline>) {
    forall i :: 0 <= i < |r| ==> exists j :: 0 <= j < |s| && r[i] == s[j] && OpensRun(s, j)
  }

  /** `s[j]` survives the continued de-duplication after a candle stamped
      `last`: its timestamp differs from the one just before it. */
  predicate OpensRunAfter(s: seq<Kline>, last: int, j: int)
    requires 0 <= j < |s|
  {
    s[j].startTime != if j == 0 then last else s[j - 1].startTime
  }

  /** `k` is a candle of `s` that opens a run after a candle stamped `last`. */
  predicate RunOpenerOf(k: Kline, s: seq<Kline>, last: int) {
    exists j :: 0 <= j < |s| && k == s[j] && OpensRunAfter(s, last, j)
  }

  /** A run opener of the tail, after the head, opens a run of the whole. */
  lemma RunOpenerOfTail(k: Kline, s: seq<Kline>, last: int)
    requires |s| > 0 && RunOpenerOf(k, s[1..], s[0].startTime)
    ensures RunOpenerOf(k, s, last)
  {
    var tail := s[1..];
    var j :| 0 <= j < |tail| && k == tail[j] && OpensRunAfter(tail, s[0].startTime, j);
    assert tail[j] == s[j + 1];
    if j > 0 {
      assert tail[j - 1] == s[j];
    }
    assert OpensRunAfter(s, last, j + 1);
  }

  /** The continued de-duplication keeps only candles that open a run. */
  lemma {:induction false} DedupAfterKeepsRunOpeners(s: seq<Kline>, last: int)
    ensures forall i :: 0 <= i < |DedupAfter(s, last)| ==> RunOpenerOf(DedupAfter(s, last)[i], s, last)
  {
    var r := DedupAfter(s, last);
    if |s| > 0 {
      var rest := DedupAfter(s[1..], s[0].startTime);
      DedupAfterKeepsRunOpeners(s[1..], s[0].startTime);
      var offset := if s[0].startTime == last then 0 else 1;
      assert r == (if offset == 0 then [] else [s[0]]) + rest;
      forall i | 0 <= i < |r| ensures RunOpenerOf(r[i], s, last) {
        if i < offset {
          assert r[i] == s[0] && OpensRunAfter(s, last, 0);
        } else {
          assert r[i] == rest[i - offset];
          assert RunOpenerOf(rest[i - offset], s[1..], s[0].startTime);
          RunOpenerOfTail(r[i], s, last);
        }
      }
    }
  }

  /** `dedup_by_key(|k| k.start_time)`: removes consecutive candles that repeat
      the previous retained candle's timestamp, so of every run of equal
      timestamps the first candle is the one kept. On a sorted sequence the
      result is strictly ascending and loses no timestamp. */
  function Dedup(s: seq<Kline>): (r: seq<Kline>)
    ensures |r| <= |s|
    ensures AllFrom(r, s)
    ensures KeepsRunOpeners(s, r)
    ensures Sorted(s) ==> StrictlyAscending(r) && Keys(r) == Keys(s)
  {
    if |s| == 0 then []
    else
      var rest := DedupAfter(s[1..], s[0].startTime);
      var r := [s[0]] + rest;
      DedupConsOpensRuns(s, r);
      DedupConsOfSorted(s, r);
      r
  }

  /** The first candle followed by the continued de-duplication of the rest
      keeps only candles that open a run. */
  lemma DedupConsOpensRuns(s: seq<Kline>, r: seq<Kline>)
    requires |s| > 0 && r == [s[0]] + DedupAfter(s[1..], s[0].startTime)
    ensures KeepsRunOpeners(s, r)
  {
    var rest := DedupAfter(s[1..], s[0].startTime);
    DedupAfterKeepsRunOpeners(s[1..], s[0].startTime);
    forall i | 0 <= i < |r| ensures exists j :: 0 <= j < |s| && r[i] == s[j] && OpensRun(s, j) {
      if i == 0 {
        assert r[0] == s[0] && OpensRun(s, 0);
      } else {
        assert r[i] == rest[i - 1];
        assert RunOpenerOf(rest[i - 1], s[1..], s[0].startTime);
        RunOpenerOfTail(r[i], s, s[0].startTime);
        var j :| 0 <= j < |s| && r[i] == s[j] && OpensRunAfter(s, s[0].startTime, j);
        assert OpensRun(s, j);
      }
    }
  }

  /** On a sorted sequence, the first candle followed by the continued
      de-duplication of the rest is strictly ascending and keeps every
      timestamp. */
  lemma DedupConsOfSorted(s: seq<Kline>, r: seq<Kline>)
    requires |s| > 0 && r == [s[0]] + DedupAfter(s[1..], s[0].startTime)
    ensures Sorted(s) ==> StrictlyAscending(r) && Keys(r) == Keys(s)
  {
    var rest := DedupAfter(s[1..], s[0].startTime);
    if Sorted(s) {
      assert s == [s[0]] + s[1..];
      SortedTail(s);
      DedupAfterOfSorted(s[1..], s[0].startTime);
      DedupAfterKeys(s[1..], s[0].startTime);
      StrictlyAscendingCons(s[0], rest);
      KeysCons(s[0], s[1..]);
      KeysCons(s[0], rest);
    }
  }

  lemma {:induction false} DedupAfterOfAscending(s: seq<Kline>, last: int)
    requires StrictlyAscending(s) && forall i :: 0 <= i < |s| ==> s[i].startTime > last
    ensures DedupAfter(s, last) == s
  {
    if |s| > 0 {
      DedupAfterOfAscending(s[1..], s[0].startTime);
      assert s == [s[0]] + s[1..];
    }
  }

  /** De-duplicating a series that has no repeated timestamp changes nothing. */
  lemma DedupOfAscendingIsIdentity(s: seq<Kline>)
    requires StrictlyAscending(s)
    ensures Dedup(s) == s
  {
    if |s| > 0 {
      DedupAfterOfAscending(s[1..], s[0].startTime);
      assert s == [s[0]] + s[1..];
    }
  }
}
