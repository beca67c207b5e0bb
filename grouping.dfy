/**
 * `_groupEventsByPeriod` and `_calculateStats` (src/sdk/usage-calculator.js):
 * the partition of events into period buckets and the statistics over the
 * bucket totals.
 */
module Grouping {
  import opened JsValues
  import opened Results
  import opened Store
  import opened Periods

  /** One entry of the `grouped` object: a period key and the events pushed under it. */
  datatype Bucket = Bucket(key: string, events: seq<Record>)

  /** The key `_getPeriodKey` gives an event under a granularity. */
  function PeriodKeyOf(g: GroupBy): Record -> string {
    e => PeriodKey(Timestamp(e), g)
  }

  function Keys(b: seq<Bucket>): (ks: seq<string>)
    ensures |ks| == |b| && forall i :: 0 <= i < |b| ==> ks[i] == b[i].key
  {
    seq(|b|, i requires 0 <= i < |b| => b[i].key)
  }

  /** The position of a key already present. */
  function IndexOfKey(b: seq<Bucket>, k: string): (i: int)
    requires k in Keys(b)
    ensures 0 <= i < |b| && b[i].key == k
    ensures forall j :: 0 <= j < i ==> b[j].key != k
  {
    if b[0].key == k then 0
    else
      assert Keys(b[1..]) == Keys(b)[1..];
      var j := IndexOfKey(b[1..], k);
      assert b[1..][j] == b[j + 1];
      1 + j
  }

  /** `grouped[k] = grouped[k] || []; grouped[k].push(e)`, keys kept in insertion order. */
  function Place(b: seq<Bucket>, k: string, e: Record): seq<Bucket> {
    if k in Keys(b) then
      var i := IndexOfKey(b, k);
      b[i := Bucket(k, b[i].events + [e])]
    else
      b + [Bucket(k, [e])]
  }

  /** The object `_groupEventsByPeriod` builds, as its entries in insertion order. */
  function Group(events: seq<Record>, keyOf: Record -> string): seq<Bucket> {
    if events == [] then []
    else
      var e := events[|events| - 1];
      Place(Group(events[..|events| - 1], keyOf), keyOf(e), e)
  }

  // ---------------------------------------------------------------------------
  // An independent description of the partition: the distinct keys in order of
  // first occurrence, each with the events carrying it.

  /** The period keys of `events`, each once, in the order they first occur. */
  function FirstKeys(events: seq<Record>, keyOf: Record -> string): (ks: seq<string>)
    ensures forall i, j :: 0 <= i < j < |ks| ==> ks[i] != ks[j]
    ensures forall k :: k in ks <==> exists e <- events :: keyOf(e) == k
  {
    if events == [] then []
    else
      var init := events[..|events| - 1];
      var e := events[|events| - 1];
      assert events == init + [e];
      var ks := FirstKeys(init, keyOf);
      if keyOf(e) in ks then ks else ks + [keyOf(e)]
  }

  /** The events whose period key is `k`, in order. */
  function WithKey(events: seq<Record>, keyOf: Record -> string, k: string): (r: seq<Record>)
    ensures forall e <- r :: e in events && keyOf(e) == k
    ensures r == [] <==> k !in FirstKeys(events, keyOf)
  {
    if events == [] then []
    else
      var init := events[..|events| - 1];
      var e := events[|events| - 1];
      assert events == init + [e];
      WithKey(init, keyOf, k) + (if keyOf(e) == k then [e] else [])
  }

  /**
   * The grouping is the partition of the events by period key: one bucket per
   * distinct key, in order of first occurrence, holding exactly the events with
   * that key in their original order.
   */
  lemma {:induction false} GroupIsPartition(events: seq<Record>, keyOf: Record -> string)
    ensures Keys(Group(events, keyOf)) == FirstKeys(events, keyOf)
    ensures forall i :: 0 <= i < |Group(events, keyOf)| ==>
      Group(events, keyOf)[i].events == WithKey(events, keyOf, Group(events, keyOf)[i].key)
  {
    if events != [] {
      var init := events[..|events| - 1];
      var e := events[|events| - 1];
      var k := keyOf(e);
      GroupIsPartition(init, keyOf);
      var b := Group(init, keyOf);
      var r := Group(events, keyOf);
      if k in Keys(b) {
        var i := IndexOfKey(b, k);
        assert r == b[i := Bucket(k, b[i].events + [e])];
        assert Keys(r) == Keys(b);
      } else {
        assert r == b + [Bucket(k, [e])];
        assert WithKey(init, keyOf, k) == [];
        assert Keys(r) == Keys(b) + [k];
      }
    }
  }

  /** Every bucket is non-empty and every event is in the bucket of its own key. */
  lemma GroupKeysAreDistinctAndNonEmpty(events: seq<Record>, keyOf: Record -> string)
    ensures forall i, j :: 0 <= i < j < |Group(events, keyOf)| ==> Group(events, keyOf)[i].key != Group(events, keyOf)[j].key
    ensures forall b <- Group(events, keyOf) :: b.events != [] && forall e <- b.events :: keyOf(e) == b.key
    ensures forall e <- events :: exists b <- Group(events, keyOf) :: b.key == keyOf(e) && e in b.events
  {
    GroupIsPartition(events, keyOf);
    var r := Group(events, keyOf);
    forall e <- events ensures exists b <- r :: b.key == keyOf(e) && e in b.events {
      assert keyOf(e) in Keys(r);
      var i := IndexOfKey(r, keyOf(e));
      WithKeyHas(events, keyOf, e);
      assert e in r[i].events;
    }
  }

  lemma {:induction false} WithKeyHas(events: seq<Record>, keyOf: Record -> string, e: Record)
    requires e in events
    ensures e in WithKey(events, keyOf, keyOf(e))
  {
    var init := events[..|events| - 1];
    assert events == init + [events[|events| - 1]];
    if e != events[|events| - 1] {
      WithKeyHas(init, keyOf, e);
    }
  }

  function Flatten(b: seq<Bucket>): seq<Record> {
    if b == [] then [] else Flatten(b[..|b| - 1]) + b[|b| - 1].events
  }

  lemma {:induction false} FlattenGrowBucket(b: seq<Bucket>, i: nat, e: Record)
    requires i < |b|
    ensures multiset(Flatten(b[i := Bucket(b[i].key, b[i].events + [e])])) == multiset(Flatten(b)) + multiset{e}
  {
    var b' := b[i := Bucket(b[i].key, b[i].events + [e])];
    var n := |b| - 1;
    assert Flatten(b) == Flatten(b[..n]) + b[n].events;
    assert Flatten(b') == Flatten(b'[..n]) + b'[n].events;
    if i < n {
      assert b'[..n] == b[..n][i := Bucket(b[i].key, b[i].events + [e])];
      FlattenGrowBucket(b[..n], i, e);
    } else {
      assert b'[..n] == b[..n];
    }
  }

  /** No event is lost or duplicated: the buckets hold exactly the input events. */
  lemma {:induction false} GroupKeepsEveryEvent(events: seq<Record>, keyOf: Record -> string)
    ensures multiset(Flatten(Group(events, keyOf))) == multiset(events)
  {
    if events != [] {
      var init := events[..|events| - 1];
      var e := events[|events| - 1];
      assert events == init + [e];
      GroupKeepsEveryEvent(init, keyOf);
      var b := Group(init, keyOf);
      if keyOf(e) in Keys(b) {
        FlattenGrowBucket(b, IndexOfKey(b, keyOf(e)), e);
      } else {
        assert (b + [Bucket(keyOf(e), [e])])[..|b|] == b;
      }
    }
  }

  /** For timestamp-ordered input, the buckets come out in ascending order of their first event. */
  lemma GroupAscending(events: seq<Record>, keyOf: Record -> string)
    requires SortedByTimestamp(events)
    ensures forall b <- Group(events, keyOf) :: b.events != []
    ensures forall i, j :: 0 <= i < j < |Group(events, keyOf)| ==>
      Timestamp(Group(events, keyOf)[i].events[0]) <= Timestamp(Group(events, keyOf)[j].events[0])
  {
    GroupAscendingFirsts(events, keyOf);
  }

  /** Every bucket holds an event, and the buckets are ordered by the timestamp of their first event. */
  predicate AscendingFirsts(b: seq<Bucket>) {
    (forall x <- b :: x.events != []) &&
    forall i, j :: 0 <= i < j < |b| ==> Timestamp(b[i].events[0]) <= Timestamp(b[j].events[0])
  }

  lemma {:induction false} GroupAscendingFirsts(events: seq<Record>, keyOf: Record -> string)
    requires SortedByTimestamp(events)
    ensures AscendingFirsts(Group(events, keyOf))
  {
    if events != [] {
      var init := events[..|events| - 1];
      var e := events[|events| - 1];
      var k := keyOf(e);
      GroupAscendingFirsts(init, keyOf);
      var b := Group(init, keyOf);
      if k in Keys(b) {
        GrowKeepsAscending(b, IndexOfKey(b, k), e);
      } else {
        forall i | 0 <= i < |b| ensures Timestamp(b[i].events[0]) <= Timestamp(e) {
          FirstIsEarlier(init, keyOf, i, e);
        }
        NewKeepsAscending(b, k, e);
      }
    }
  }

  /** A bucket's first event comes from the grouped events, so under sorted input it is no later than a later event. */
  lemma FirstIsEarlier(init: seq<Record>, keyOf: Record -> string, i: nat, e: Record)
    requires SortedByTimestamp(init + [e])
    requires i < |Group(init, keyOf)| && AscendingFirsts(Group(init, keyOf))
    ensures Timestamp(Group(init, keyOf)[i].events[0]) <= Timestamp(e)
  {
    var b := Group(init, keyOf);
    GroupIsPartition(init, keyOf);
    var x := b[i].events[0];
    assert x in WithKey(init, keyOf, b[i].key);
    var p :| 0 <= p < |init| && init[p] == x;
    assert (init + [e])[p] == x && (init + [e])[|init|] == e;
  }

  lemma GrowKeepsAscending(b: seq<Bucket>, i: nat, e: Record)
    requires i < |b| && AscendingFirsts(b)
    ensures AscendingFirsts(b[i := Bucket(b[i].key, b[i].events + [e])])
  {
    var r := b[i := Bucket(b[i].key, b[i].events + [e])];
    assert forall j :: 0 <= j < |r| ==> r[j].events != [] && r[j].events[0] == b[j].events[0];
  }

  lemma NewKeepsAscending(b: seq<Bucket>, k: string, e: Record)
    requires AscendingFirsts(b)
    requires forall i :: 0 <= i < |b| ==> Timestamp(b[i].events[0]) <= Timestamp(e)
    ensures AscendingFirsts(b + [Bucket(k, [e])])
  {
  }

  // ---------------------------------------------------------------------------
  // Totals per bucket and the statistics over them.

  /** One entry of `byPeriod`. */
  datatype PeriodTotal = PeriodTotal(date: string, total: int)

  /** `getUsageStats`'s result. */
  datatype Stats = Stats(total: int, average: real, max: int, min: int, byPeriod: seq<PeriodTotal>)

  /** The result for a window without events. */
  const EmptyStats: Stats := Stats(0, 0.0, 0, 0, [])

  /** `periodEvents.reduce((sum, e) => sum + (e.credits_used || 0), 0)`. */
  function BucketTotal(b: Bucket): int {
    Sum(b.events, "credits_used")
  }

  function Totals(b: seq<Bucket>): (ts: seq<PeriodTotal>)
    ensures |ts| == |b| && forall i :: 0 <= i < |b| ==> ts[i] == PeriodTotal(b[i].key, BucketTotal(b[i]))
  {
    seq(|b|, i requires 0 <= i < |b| => PeriodTotal(b[i].key, BucketTotal(b[i])))
  }

  function SumTotals(ts: seq<PeriodTotal>): int {
    if ts == [] then 0 else SumTotals(ts[..|ts| - 1]) + ts[|ts| - 1].total
  }

  /** `max` after the loop: it starts at 0, so it is never negative. */
  function MaxFromZero(ts: seq<PeriodTotal>): (m: int)
    ensures m >= 0
  {
    if ts == [] then 0
    else
      var m := MaxFromZero(ts[..|ts| - 1]);
      var last := ts[|ts| - 1];
      if m >= last.total then m else last.total
  }

  /** `max` bounds every period total from above and is 0 or one of them. */
  lemma {:induction false} MaxFromZeroIsMax(ts: seq<PeriodTotal>)
    ensures forall t <- ts :: t.total <= MaxFromZero(ts)
    ensures MaxFromZero(ts) == 0 || exists t <- ts :: t.total == MaxFromZero(ts)
  {
    if ts != [] {
      var init := ts[..|ts| - 1];
      MaxFromZeroIsMax(init);
      assert ts == init + [ts[|ts| - 1]];
    }
  }

  /** `min` after the loop, None standing for the initial `Infinity`. */
  function Least(ts: seq<PeriodTotal>): (m: Option<int>)
    ensures m.None? <==> ts == []
  {
    if ts == [] then None
    else
      var m := Least(ts[..|ts| - 1]);
      var last := ts[|ts| - 1];
      if m.Some? && m.value <= last.total then m else Some(last.total)
  }

  /** `min` is one of the period totals and bounds every one of them from below. */
  lemma {:induction false} LeastIsMin(ts: seq<PeriodTotal>)
    ensures Least(ts).Some? ==> (exists t <- ts :: t.total == Least(ts).value) && forall t <- ts :: Least(ts).value <= t.total
  {
    if ts != [] {
      var init := ts[..|ts| - 1];
      LeastIsMin(init);
      assert ts == init + [ts[|ts| - 1]];
    }
  }

  /** The statistics `_calculateStats` returns for a non-empty grouping. */
  function StatsOf(grouped: seq<Bucket>): (s: Stats)
    requires |grouped| > 0
    ensures s.byPeriod == Totals(grouped)
    ensures s.total == SumTotals(s.byPeriod)
    ensures s.average == s.total as real / |grouped| as real
    ensures s.max >= 0 && forall t <- s.byPeriod :: t.total <= s.max
    ensures s.max == 0 || exists t <- s.byPeriod :: t.total == s.max
    ensures (exists t <- s.byPeriod :: t.total == s.min) && forall t <- s.byPeriod :: s.min <= t.total
  {
    var ts := Totals(grouped);
    var total := SumTotals(ts);
    MaxFromZeroIsMax(ts);
    LeastIsMin(ts);
    Stats(total, total as real / |ts| as real, MaxFromZero(ts), Least(ts).value, ts)
  }

  lemma {:induction false} SumTotalsUpdate(ts: seq<PeriodTotal>, i: nat, t: PeriodTotal)
    requires i < |ts|
    ensures SumTotals(ts[i := t]) == SumTotals(ts) - ts[i].total + t.total
  {
    var n := |ts| - 1;
    if i < n {
      assert ts[i := t][..n] == ts[..n][i := t];
      SumTotalsUpdate(ts[..n], i, t);
    } else {
      assert ts[i := t][..n] == ts[..n];
    }
  }

  lemma SumAppendOne(rows: seq<Record>, x: Record)
    ensures Sum(rows + [x], "credits_used") == Sum(rows, "credits_used") + NumberIn(x, "credits_used")
  {
    assert (rows + [x])[..|rows|] == rows;
  }

  /** Pushing an event into a bucket adds its credits to the sum of all bucket totals. */
  lemma GrowBucketTotal(b: seq<Bucket>, i: nat, e: Record)
    requires i < |b|
    ensures SumTotals(Totals(b[i := Bucket(b[i].key, b[i].events + [e])]))
         == SumTotals(Totals(b)) + NumberIn(e, "credits_used")
  {
    var nb := Bucket(b[i].key, b[i].events + [e]);
    SumAppendOne(b[i].events, e);
    var t := PeriodTotal(nb.key, BucketTotal(nb));
    assert Totals(b[i := nb]) == Totals(b)[i := t];
    SumTotalsUpdate(Totals(b), i, t);
  }

  /** Opening a bucket for a new key adds the event's credits to the sum of all bucket totals. */
  lemma NewBucketTotal(b: seq<Bucket>, k: string, e: Record)
    ensures SumTotals(Totals(b + [Bucket(k, [e])])) == SumTotals(Totals(b)) + NumberIn(e, "credits_used")
  {
    SumAppendOne([], e);
    assert [] + [e] == [e];
    var t := PeriodTotal(k, BucketTotal(Bucket(k, [e])));
    assert Totals(b + [Bucket(k, [e])]) == Totals(b) + [t];
    assert (Totals(b) + [t])[..|b|] == Totals(b);
  }

  /** The bucket totals add up to the credits of all grouped events. */
  lemma {:induction false} GroupTotal(events: seq<Record>, keyOf: Record -> string)
    ensures SumTotals(Totals(Group(events, keyOf))) == Sum(events, "credits_used")
  {
    if events != [] {
      var init := events[..|events| - 1];
      var e := events[|events| - 1];
      assert events == init + [e];
      GroupTotal(init, keyOf);
      SumAppendOne(init, e);
      var b := Group(init, keyOf);
      if keyOf(e) in Keys(b) {
        GrowBucketTotal(b, IndexOfKey(b, keyOf(e)), e);
      } else {
        NewBucketTotal(b, keyOf(e), e);
      }
    }
  }

  /**
   * The dates of the bucket totals are the keys of the events, each once:
   * every event's key has a total and every total belongs to some event.
   */
  lemma TotalsCoverKeys(events: seq<Record>, keyOf: Record -> string)
    ensures var ts := Totals(Group(events, keyOf));
      (forall i, j :: 0 <= i < j < |ts| ==> ts[i].date != ts[j].date)
      && (forall e <- events :: exists p <- ts :: p.date == keyOf(e))
      && (forall p <- ts :: exists e <- events :: p.date == keyOf(e))
  {
    GroupKeysAreDistinctAndNonEmpty(events, keyOf);
    EveryEventHasATotal(events, keyOf);
    EveryTotalHasAnEvent(events, keyOf);
  }

  lemma EveryEventHasATotal(events: seq<Record>, keyOf: Record -> string)
    ensures forall e <- events :: exists p <- Totals(Group(events, keyOf)) :: p.date == keyOf(e)
  {
    var b := Group(events, keyOf);
    var ts := Totals(b);
    GroupKeysAreDistinctAndNonEmpty(events, keyOf);
    forall e <- events ensures exists p <- ts :: p.date == keyOf(e) {
      var x :| x in b && x.key == keyOf(e) && e in x.events;
      var i :| 0 <= i < |b| && b[i] == x;
      assert ts[i] in ts;
    }
  }

  lemma EveryTotalHasAnEvent(events: seq<Record>, keyOf: Record -> string)
    ensures forall p <- Totals(Group(events, keyOf)) :: exists e <- events :: p.date == keyOf(e)
  {
    var b := Group(events, keyOf);
    var ts := Totals(b);
    GroupIsPartition(events, keyOf);
    forall i | 0 <= i < |ts| ensures exists e <- events :: ts[i].date == keyOf(e) {
      assert b[i].key in FirstKeys(events, keyOf);
    }
  }

  /**
   * `_groupEventsByPeriod(events, groupBy)`: one pass over the events, each
   * pushed onto the array under its period key (created on first use).
   */
  method GroupEventsByPeriod(events: seq<Record>, g: GroupBy) returns (grouped: seq<Bucket>)
    ensures grouped == Group(events, PeriodKeyOf(g))
  {
    var keyOf := PeriodKeyOf(g);
    grouped := [];
    assert events[..0] == [];
    for n := 0 to |events|
      invariant grouped == Group(events[..n], keyOf)
    {
      var e := events[n];
      grouped := Place(grouped, keyOf(e), e);
      GroupStep(events, n, keyOf);
    }
    assert events[..|events|] == events;
  }

  lemma GroupStep(events: seq<Record>, n: nat, keyOf: Record -> string)
    requires n < |events|
    ensures Group(events[..n + 1], keyOf) == Place(Group(events[..n], keyOf), keyOf(events[n]), events[n])
  {
    assert events[..n + 1][..n] == events[..n];
  }

  /** `_calculateStats(groupedEvents)`, for the non-empty groupings `getUsageStats` passes it. */
  method CalculateStats(grouped: seq<Bucket>) returns (stats: Stats)
    requires |grouped| > 0
    ensures stats == StatsOf(grouped)
  {
    var total, max, min, byPeriod := 0, 0, None, [];
    for i := 0 to |grouped|
      invariant byPeriod == Totals(grouped)[..i]
      invariant total == SumTotals(byPeriod)
      invariant max == MaxFromZero(byPeriod)
      invariant min == Least(byPeriod)
    {
      var periodTotal := Sum(grouped[i].events, "credits_used");
      var t := PeriodTotal(grouped[i].key, periodTotal);
      StatsStep(byPeriod, t);
      total := total + periodTotal;
      max := if max >= periodTotal then max else periodTotal;
      min := if min.Some? && min.value <= periodTotal then min else Some(periodTotal);
      TakeOneMore(Totals(grouped), i);
      byPeriod := byPeriod + [t];
    }
    assert byPeriod == Totals(grouped);
    stats := Stats(total, total as real / |byPeriod| as real, max, min.GetOr(0), byPeriod);
  }

  lemma TakeOneMore<T>(s: seq<T>, i: nat)
    requires i < |s|
    ensures s[..i + 1] == s[..i] + [s[i]]
  {
  }

  /** One loop step of `_calculateStats` on the running total, maximum and minimum. */
  lemma StatsStep(ts: seq<PeriodTotal>, t: PeriodTotal)
    ensures SumTotals(ts + [t]) == SumTotals(ts) + t.total
    ensures MaxFromZero(ts + [t]) == if MaxFromZero(ts) >= t.total then MaxFromZero(ts) else t.total
    ensures Least(ts + [t]) == if Least(ts).Some? && Least(ts).value <= t.total then Least(ts) else Some(t.total)
  {
    assert (ts + [t])[..|ts|] == ts;
  }
}
