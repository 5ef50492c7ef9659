/**
 * Chart series helpers. A snapshot's `recordedAt` is a UTC time in
 * milliseconds; its date key (`toISOString().slice(0, 10)`) is identified with
 * the day number `recordedAt / 86400000`, and ISO date strings compare like
 * those day numbers.
 */
module Charts {
  import opened Sequences

  datatype Snapshot = Snapshot(recordedAt: int, position: real, traffic: int)
  datatype SeriesPoint = SeriesPoint(date: int, position: real, traffic: int)
  datatype DayTraffic = DayTraffic(date: int, traffic: int)

  const MillisPerDay: int := 86400000

  /** The UTC day of a time in milliseconds (floor division, also before 1970). */
  function DayOf(recordedAt: int): int {
    recordedAt / MillisPerDay
  }

  lemma DayOfMonotone(a: int, b: int)
    requires a <= b
    ensures DayOf(a) <= DayOf(b)
  {
  }

  function RecordedAt(s: Snapshot): real {
    s.recordedAt as real
  }

  function ToPoint(s: Snapshot): SeriesPoint {
    SeriesPoint(DayOf(s.recordedAt), s.position, s.traffic)
  }

  /** `snapshotSeries`: the snapshots sorted by time, as (date, position, traffic) points. */
  function SnapshotSeries(snapshots: seq<Snapshot>): (r: seq<SeriesPoint>)
    ensures |r| == |snapshots|
    ensures forall i, j :: 0 <= i < j < |r| ==> r[i].date <= r[j].date
    ensures multiset(r) == multiset(MapSeq(snapshots, ToPoint))
    ensures r == MapSeq(SortBy(snapshots, RecordedAt), ToPoint)
  {
    var sorted := SortBy(snapshots, RecordedAt);
    MapPermutation(sorted, snapshots, ToPoint);
    forall i, j | 0 <= i < j < |sorted| ensures DayOf(sorted[i].recordedAt) <= DayOf(sorted[j].recordedAt) {
      DayOfMonotone(sorted[i].recordedAt, sorted[j].recordedAt);
    }
    MapSeq(sorted, ToPoint)
  }

  /** All snapshots of all keywords, keyword by keyword. */
  function Flatten(keywords: seq<seq<Snapshot>>): seq<Snapshot> {
    if keywords == [] then [] else Flatten(keywords[..|keywords| - 1]) + keywords[|keywords| - 1]
  }

  /** The traffic of the snapshots recorded on day `d`. */
  function SumOn(snapshots: seq<Snapshot>, d: int): int {
    if snapshots == [] then 0
    else
      var last := snapshots[|snapshots| - 1];
      SumOn(snapshots[..|snapshots| - 1], d) + (if DayOf(last.recordedAt) == d then last.traffic else 0)
  }

  /** The days on which some snapshot was recorded. */
  function Days(snapshots: seq<Snapshot>): set<int> {
    set i | 0 <= i < |snapshots| :: DayOf(snapshots[i].recordedAt)
  }

  function TotalTraffic(snapshots: seq<Snapshot>): int {
    if snapshots == [] then 0 else TotalTraffic(snapshots[..|snapshots| - 1]) + snapshots[|snapshots| - 1].traffic
  }

  function SumEntries(entries: seq<DayTraffic>): int {
    if entries == [] then 0 else SumEntries(entries[..|entries| - 1]) + entries[|entries| - 1].traffic
  }

  function Dates(entries: seq<DayTraffic>): seq<int> {
    MapSeq(entries, (e: DayTraffic) => e.date)
  }

  lemma FlattenStep(keywords: seq<seq<Snapshot>>, i: nat)
    requires i < |keywords|
    ensures Flatten(keywords[..i + 1]) == Flatten(keywords[..i]) + keywords[i]
  {
    assert keywords[..i + 1][..i] == keywords[..i];
  }

  lemma DaysStep(snapshots: seq<Snapshot>, x: Snapshot)
    ensures Days(snapshots + [x]) == Days(snapshots) + {DayOf(x.recordedAt)}
  {
    var s := snapshots + [x];
    assert s[|s| - 1] == x;
    forall d | d in Days(s) ensures d in Days(snapshots) + {DayOf(x.recordedAt)} {
      var i :| 0 <= i < |s| && DayOf(s[i].recordedAt) == d;
      if i < |snapshots| {
        assert s[i] == snapshots[i];
      }
    }
    forall d | d in Days(snapshots) ensures d in Days(s) {
      var i :| 0 <= i < |snapshots| && DayOf(snapshots[i].recordedAt) == d;
      assert s[i] == snapshots[i];
    }
  }

  /** The per-day traffic summed over a list of days. */
  function SumOverDays(days: seq<int>, snapshots: seq<Snapshot>): int {
    if days == [] then 0 else SumOverDays(days[..|days| - 1], snapshots) + SumOn(snapshots, days[|days| - 1])
  }

  /** `t` once for every occurrence of `day` in `days`. */
  function Indicator(days: seq<int>, day: int, t: int): int {
    if days == [] then 0
    else Indicator(days[..|days| - 1], day, t) + (if days[|days| - 1] == day then t else 0)
  }

  lemma {:induction false} IndicatorOnce(days: seq<int>, day: int, t: int)
    requires Distinct(days)
    ensures Indicator(days, day, t) == (if day in days then t else 0)
    decreases |days|
  {
    if days != [] {
      var p := days[..|days| - 1];
      assert Distinct(p);
      IndicatorOnce(p, day, t);
      if days[|days| - 1] == day {
        assert day !in p;
      } else {
        assert day in days <==> day in p;
      }
    }
  }

  /** Adding one snapshot adds its traffic on its day only. */
  lemma {:induction false} SumOverDaysStep(days: seq<int>, snapshots: seq<Snapshot>, x: Snapshot)
    ensures SumOverDays(days, snapshots + [x])
            == SumOverDays(days, snapshots) + Indicator(days, DayOf(x.recordedAt), x.traffic)
    decreases |days|
  {
    if days != [] {
      SumOverDaysStep(days[..|days| - 1], snapshots, x);
      var s := snapshots + [x];
      assert s[..|s| - 1] == snapshots;
    }
  }

  /**
   * Summing the per-day traffic over distinct days that cover every recorded
   * day gives the total traffic.
   */
  lemma {:induction false} SumOverDaysTotal(days: seq<int>, snapshots: seq<Snapshot>)
    requires Distinct(days)
    requires forall d :: d in Days(snapshots) ==> d in days
    ensures SumOverDays(days, snapshots) == TotalTraffic(snapshots)
    decreases |snapshots|
  {
    if snapshots == [] {
      SumOverDaysEmpty(days);
    } else {
      var p := snapshots[..|snapshots| - 1];
      var x := snapshots[|snapshots| - 1];
      assert snapshots == p + [x];
      DaysStep(p, x);
      SumOverDaysTotal(days, p);
      SumOverDaysStep(days, p, x);
      IndicatorOnce(days, DayOf(x.recordedAt), x.traffic);
    }
  }

  lemma {:induction false} SumOverDaysEmpty(days: seq<int>)
    ensures SumOverDays(days, []) == 0
    decreases |days|
  {
    if days != [] {
      SumOverDaysEmpty(days[..|days| - 1]);
    }
  }

  /** The per-day sums of entries whose traffic is the per-day sum of `snapshots`. */
  lemma {:induction false} SumEntriesByDay(entries: seq<DayTraffic>, snapshots: seq<Snapshot>)
    requires forall i :: 0 <= i < |entries| ==> entries[i].traffic == SumOn(snapshots, entries[i].date)
    ensures SumEntries(entries) == SumOverDays(Dates(entries), snapshots)
    decreases |entries|
  {
    if entries != [] {
      var p := entries[..|entries| - 1];
      SumEntriesByDay(p, snapshots);
      assert Dates(entries)[..|entries| - 1] == Dates(p);
    }
  }

  /**
   * `aggregateTraffic`: the traffic of every snapshot of every keyword summed per
   * day into a map, whose entries are then listed by ascending date.
   */
  method AggregateTraffic(keywords: seq<seq<Snapshot>>) returns (entries: seq<DayTraffic>)
    ensures forall i, j :: 0 <= i < j < |entries| ==> entries[i].date < entries[j].date
    ensures forall i :: 0 <= i < |entries| ==>
      entries[i].date in Days(Flatten(keywords)) && entries[i].traffic == SumOn(Flatten(keywords), entries[i].date)
    ensures forall d :: d in Days(Flatten(keywords)) ==> d in Dates(entries)
    ensures SumEntries(entries) == TotalTraffic(Flatten(keywords))
    ensures Flatten(keywords) == [] ==> entries == []
  {
    var trafficByDate, order := TrafficByDate(keywords);
    entries := SortedEntries(trafficByDate, order);
    assert Distinct(Dates(entries));
    SumEntriesByDay(entries, Flatten(keywords));
    SumOverDaysTotal(Dates(entries), Flatten(keywords));
  }

  /** `trafficByDate` and its key order hold the per-day totals of `done`. */
  ghost predicate Tallies(trafficByDate: map<int, int>, order: seq<int>, done: seq<Snapshot>) {
    && trafficByDate.Keys == Days(done)
    && (forall d :: d in trafficByDate ==> trafficByDate[d] == SumOn(done, d))
    && Distinct(order) && (forall d :: d in order <==> d in trafficByDate)
  }

  /** The tally `trafficByDate` and its keys in insertion order, the order `Object.entries` reports them in. */
  datatype Tally = Tally(trafficByDate: map<int, int>, order: seq<int>)

  /** `trafficByDate[key] = (trafficByDate[key] ?? 0) + snapshot.traffic`. */
  function AddSnapshot(t: Tally, x: Snapshot): Tally {
    var key := DayOf(x.recordedAt);
    if key in t.trafficByDate then Tally(t.trafficByDate[key := t.trafficByDate[key] + x.traffic], t.order)
    else Tally(t.trafficByDate[key := x.traffic], t.order + [key])
  }

  /** The tally after visiting `snapshots` in order. */
  function TallyOf(snapshots: seq<Snapshot>): Tally {
    if snapshots == [] then Tally(map[], [])
    else AddSnapshot(TallyOf(snapshots[..|snapshots| - 1]), snapshots[|snapshots| - 1])
  }

  /** The tally holds, for each day seen, the summed traffic of that day, and lists each day once. */
  lemma {:induction false} TallyOfSums(snapshots: seq<Snapshot>)
    ensures Tallies(TallyOf(snapshots).trafficByDate, TallyOf(snapshots).order, snapshots)
    decreases |snapshots|
  {
    if snapshots != [] {
      var done := snapshots[..|snapshots| - 1];
      var x := snapshots[|snapshots| - 1];
      TallyOfSums(done);
      var t := TallyOf(done);
      var key := DayOf(x.recordedAt);
      assert snapshots == done + [x];
      assert (done + [x])[..|done|] == done;
      DaysStep(done, x);
      if key !in Days(done) {
        SumOnAbsent(done, key);
      }
    }
  }

  /** The nested `forEach` loops over the keywords and their snapshots. */
  method TrafficByDate(keywords: seq<seq<Snapshot>>) returns (trafficByDate: map<int, int>, order: seq<int>)
    ensures trafficByDate.Keys == Days(Flatten(keywords))
    ensures forall d :: d in trafficByDate ==> trafficByDate[d] == SumOn(Flatten(keywords), d)
    ensures Distinct(order) && forall d :: d in order <==> d in trafficByDate
  {
    trafficByDate := map[];
    order := [];
    var k := 0;
    while k < |keywords|
      invariant 0 <= k <= |keywords|
      invariant Tally(trafficByDate, order) == TallyOf(Flatten(keywords[..k]))
    {
      var snapshots := keywords[k];
      var j := 0;
      assert Flatten(keywords[..k]) + snapshots[..0] == Flatten(keywords[..k]);
      while j < |snapshots|
        invariant 0 <= j <= |snapshots|
        invariant Tally(trafficByDate, order) == TallyOf(Flatten(keywords[..k]) + snapshots[..j])
      {
        var key := DayOf(snapshots[j].recordedAt);
        var before := 0;
        if key in trafficByDate {
          before := trafficByDate[key];
        } else {
          order := order + [key];
        }
        trafficByDate := trafficByDate[key := before + snapshots[j].traffic];
        ghost var next := Flatten(keywords[..k]) + snapshots[..j + 1];
        assert next[..|next| - 1] == Flatten(keywords[..k]) + snapshots[..j];
        j := j + 1;
      }
      assert snapshots[..j] == snapshots;
      FlattenStep(keywords, k);
      k := k + 1;
    }
    assert keywords[..k] == keywords;
    TallyOfSums(Flatten(keywords));
  }

  function DayKey(d: int): real {
    d as real
  }

  /** Taking out the least element of a list of distinct dates leaves the larger ones. */
  lemma RemoveLeast(s: seq<int>, m: nat)
    requires Distinct(s) && m < |s|
    requires forall j :: 0 <= j < |s| ==> s[m] <= s[j]
    ensures var rest := s[..m] + s[m + 1..];
      && Distinct(rest)
      && (forall e :: e in s <==> e == s[m] || e in rest)
      && (forall e :: e in rest ==> s[m] < e)
  {
    var rest := s[..m] + s[m + 1..];
    assert s == s[..m] + [s[m]] + s[m + 1..];
    forall i | 0 <= i < |rest| ensures rest[i] == s[if i < m then i else i + 1] {
    }
    forall i, j | 0 <= i < j < |rest| ensures rest[i] != rest[j] {
      var i' := if i < m then i else i + 1;
      var j' := if j < m then j else j + 1;
      assert rest[i] == s[i'] && rest[j] == s[j'];
    }
    forall e | e in rest ensures s[m] < e {
      var i :| 0 <= i < |rest| && rest[i] == e;
      var i' := if i < m then i else i + 1;
      assert s[i'] == e && i' != m;
    }
  }

  /**
   * The state of the sort after some rounds: `entries` hold the least dates in
   * ascending order with their totals, `remaining` the other keys, each once.
   */
  ghost predicate Extracted(trafficByDate: map<int, int>, entries: seq<DayTraffic>, remaining: seq<int>) {
    && Distinct(remaining) && (forall d :: d in remaining ==> d in trafficByDate)
    && (forall i, j :: 0 <= i < j < |entries| ==> entries[i].date < entries[j].date)
    && (forall i :: 0 <= i < |entries| ==>
          entries[i].date in trafficByDate && entries[i].date !in remaining
          && entries[i].traffic == trafficByDate[entries[i].date])
    && (forall i, d :: 0 <= i < |entries| && d in remaining ==> entries[i].date < d)
    && (forall d :: d in trafficByDate ==> d in remaining || d in Dates(entries))
  }

  /** One round of the sort: moving the least remaining date to the end of `entries`. */
  lemma ExtractStep(trafficByDate: map<int, int>, entries: seq<DayTraffic>, remaining: seq<int>, m: nat)
    requires Extracted(trafficByDate, entries, remaining)
    requires m < |remaining| && forall j :: 0 <= j < |remaining| ==> remaining[m] <= remaining[j]
    ensures remaining[m] in trafficByDate
    ensures Extracted(trafficByDate, entries + [DayTraffic(remaining[m], trafficByDate[remaining[m]])],
      remaining[..m] + remaining[m + 1..])
  {
    var d := remaining[m];
    RemoveLeast(remaining, m);
    assert Dates(entries + [DayTraffic(d, trafficByDate[d])]) == Dates(entries) + [d];
  }

  /** `Object.entries(trafficByDate)` sorted by date: the least remaining date is taken each round. */
  method SortedEntries(trafficByDate: map<int, int>, order: seq<int>) returns (entries: seq<DayTraffic>)
    requires Distinct(order) && forall d :: d in order <==> d in trafficByDate
    ensures forall i, j :: 0 <= i < j < |entries| ==> entries[i].date < entries[j].date
    ensures forall i :: 0 <= i < |entries| ==>
      entries[i].date in trafficByDate && entries[i].traffic == trafficByDate[entries[i].date]
    ensures forall d :: d in trafficByDate ==> d in Dates(entries)
  {
    entries := [];
    var remaining := order;
    while remaining != []
      invariant Extracted(trafficByDate, entries, remaining)
      decreases |remaining|
    {
      var m := FirstMinIndex(remaining, DayKey);
      ExtractStep(trafficByDate, entries, remaining, m);
      entries := entries + [DayTraffic(remaining[m], trafficByDate[remaining[m]])];
      remaining := remaining[..m] + remaining[m + 1..];
    }
  }

  lemma {:induction false} SumOnAbsent(snapshots: seq<Snapshot>, d: int)
    requires d !in Days(snapshots)
    ensures SumOn(snapshots, d) == 0
    decreases |snapshots|
  {
    if snapshots != [] {
      var p := snapshots[..|snapshots| - 1];
      assert DayOf(snapshots[|snapshots| - 1].recordedAt) in Days(snapshots);
      assert Days(p) <= Days(snapshots) by {
        forall e | e in Days(p) ensures e in Days(snapshots) {
          var i :| 0 <= i < |p| && DayOf(p[i].recordedAt) == e;
          assert snapshots[i] == p[i];
        }
      }
      SumOnAbsent(p, d);
    }
  }

  /** No snapshots at all, or keywords without snapshots, give no entries. */
  lemma AggregateOfNothing(keywords: seq<seq<Snapshot>>)
    requires forall i :: 0 <= i < |keywords| ==> keywords[i] == []
    ensures Flatten(keywords) == [] && Days(Flatten(keywords)) == {}
  {
    FlattenOfEmpties(keywords);
  }

  lemma {:induction false} FlattenOfEmpties(keywords: seq<seq<Snapshot>>)
    requires forall i :: 0 <= i < |keywords| ==> keywords[i] == []
    ensures Flatten(keywords) == []
    decreases |keywords|
  {
    if keywords != [] {
      FlattenOfEmpties(keywords[..|keywords| - 1]);
    }
  }
}
