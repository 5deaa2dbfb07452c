/** The windowed analytics routes of backend/app/admin.py: `feedback_count`
    and `login_count` (per-day buckets) and `feedback_rate` and `login_rate`
    (events per day). Both collections are handled the same way, so the rules
    are stated once over the sequence of event timestamps. */
module AdminAnalytics {
  import opened Options
  import opened OrderedDict
  import opened Records

  /** `start_date = now - timedelta(days=days)` */
  function WindowStart(now: int, days: int): int {
    now - days * DaySeconds
  }

  /** The `$match` stage: `date >= start_date`. */
  predicate InWindow(t: int, start: int) {
    t >= start
  }

  /** How many events the `$match` stage keeps. */
  function CountInWindow(stamps: seq<int>, start: int): (r: nat)
    ensures r <= |stamps|
  {
    if stamps == [] then 0
    else CountInWindow(stamps[..|stamps| - 1], start) + (if InWindow(stamps[|stamps| - 1], start) then 1 else 0)
  }

  /** How many kept events fall on UTC day `d`. */
  function CountOnDay(stamps: seq<int>, start: int, d: int): (r: nat)
    ensures r <= CountInWindow(stamps, start)
  {
    if stamps == [] then 0
    else
      var t := stamps[|stamps| - 1];
      CountOnDay(stamps[..|stamps| - 1], start, d) + (if InWindow(t, start) && DayOf(t) == d then 1 else 0)
  }

  predicate StrictlyAscending(g: Dict<int, int>) {
    forall i, j :: 0 <= i < j < |g| ==> g[i].0 < g[j].0
  }

  predicate Positive(g: Dict<int, int>) {
    forall i :: 0 <= i < |g| ==> g[i].1 >= 1
  }

  /** One more event on day `d` in a day-sorted group list. */
  function Bump(g: Dict<int, int>, d: int): (r: Dict<int, int>)
    requires StrictlyAscending(g)
    ensures StrictlyAscending(r)
    ensures |r| > 0 && (r[0].0 == d || (|g| > 0 && r[0].0 == g[0].0))
    ensures Positive(g) ==> Positive(r)
  {
    if g == [] then [(d, 1)]
    else if g[0].0 == d then [(d, g[0].1 + 1)] + g[1..]
    else if d < g[0].0 then [(d, 1)] + g
    else [g[0]] + Bump(g[1..], d)
  }

  /** The `$group` and `$sort` stages: one `(day, count)` entry per day that
      has at least one kept event, in ascending day order. */
  function Aggregate(stamps: seq<int>, start: int): (g: Dict<int, int>)
    ensures StrictlyAscending(g) && Positive(g)
  {
    if stamps == [] then []
    else
      var g := Aggregate(stamps[..|stamps| - 1], start);
      var t := stamps[|stamps| - 1];
      if InWindow(t, start) then Bump(g, DayOf(t)) else g
  }

  lemma AscendingDistinct(g: Dict<int, int>)
    requires StrictlyAscending(g)
    ensures DistinctKeys(g)
  {
  }

  lemma GetCons<K, V>(x: (K, V), g: Dict<K, V>, k: K, dflt: V)
    ensures Get([x] + g, k, dflt) == if x.0 == k then x.1 else Get(g, k, dflt)
  {
    var c := [x] + g;
    assert c[0] == x && c[1..] == g;
  }

  /** In a dict whose values are all positive, a key is present exactly when
      its value read with default 0 is positive. */
  lemma PositiveHasKey(g: Dict<int, int>, k: int)
    requires Positive(g)
    ensures HasKey(g, k) <==> Get(g, k, 0) > 0
  {
  }

  /** Bump adds one to the count of `d` and to nothing else. */
  lemma {:induction false} GetBump(g: Dict<int, int>, d: int, k: int)
    requires StrictlyAscending(g)
    ensures Get(Bump(g, d), k, 0) == Get(g, k, 0) + (if k == d then 1 else 0)
  {
    if g == [] {
      GetCons((d, 1), [], k, 0);
    } else if g[0].0 == d {
      assert g == [g[0]] + g[1..];
      GetCons(g[0], g[1..], k, 0);
      GetCons((d, g[0].1 + 1), g[1..], k, 0);
    } else if d < g[0].0 {
      GetCons((d, 1), g, k, 0);
    } else {
      assert g == [g[0]] + g[1..];
      GetBump(g[1..], d, k);
      GetCons(g[0], g[1..], k, 0);
      GetCons(g[0], Bump(g[1..], d), k, 0);
    }
  }

  lemma {:induction false} SumValuesCons(x: (int, int), g: Dict<int, int>)
    ensures SumOf(Values([x] + g)) == x.1 + SumOf(Values(g))
  {
    assert Values([x] + g) == [x.1] + Values(g);
    SumOfConcat([x.1], Values(g));
    assert SumOf([x.1]) == SumOf([]) + x.1;
  }

  /** Raising the head entry's count by one raises the total by one. */
  lemma RaiseHeadSum(g: Dict<int, int>, d: int)
    requires g != []
    ensures SumOf(Values([(d, g[0].1 + 1)] + g[1..])) == SumOf(Values(g)) + 1
  {
    assert g == [g[0]] + g[1..];
    SumValuesCons(g[0], g[1..]);
    SumValuesCons((d, g[0].1 + 1), g[1..]);
  }

  /** The head of `g` in front of a tail whose total is one more than that
      of `g`'s tail. */
  lemma ConsSumStep(g: Dict<int, int>, a: Dict<int, int>)
    requires g != []
    requires SumOf(Values(a)) == SumOf(Values(g[1..])) + 1
    ensures SumOf(Values([g[0]] + a)) == SumOf(Values(g)) + 1
  {
    assert g == [g[0]] + g[1..];
    SumValuesCons(g[0], a);
    SumValuesCons(g[0], g[1..]);
  }

  /** Bump adds exactly one event to the total. */
  lemma {:induction false} SumBump(g: Dict<int, int>, d: int)
    requires StrictlyAscending(g)
    ensures SumOf(Values(Bump(g, d))) == SumOf(Values(g)) + 1
  {
    if g == [] {
      SumValuesCons((d, 1), []);
    } else if g[0].0 == d {
      RaiseHeadSum(g, d);
    } else if d < g[0].0 {
      SumValuesCons((d, 1), g);
    } else {
      SumBump(g[1..], d);
      ConsSumStep(g, Bump(g[1..], d));
    }
  }

  /** Each group holds the number of kept events on its day; a day without
      kept events has no group. */
  lemma {:induction false} AggregateCounts(stamps: seq<int>, start: int, d: int)
    ensures Get(Aggregate(stamps, start), d, 0) == CountOnDay(stamps, start, d)
    ensures HasKey(Aggregate(stamps, start), d) <==> CountOnDay(stamps, start, d) > 0
  {
    if stamps != [] {
      var init := stamps[..|stamps| - 1];
      var t := stamps[|stamps| - 1];
      AggregateCounts(init, start, d);
      if InWindow(t, start) {
        GetBump(Aggregate(init, start), DayOf(t), d);
      }
    }
    PositiveHasKey(Aggregate(stamps, start), d);
  }

  /** The groups together hold every kept event once. */
  lemma {:induction false} AggregateTotal(stamps: seq<int>, start: int)
    ensures SumOf(Values(Aggregate(stamps, start))) == CountInWindow(stamps, start)
  {
    if stamps != [] {
      var init := stamps[..|stamps| - 1];
      AggregateTotal(init, start);
      if InWindow(stamps[|stamps| - 1], start) {
        SumBump(Aggregate(init, start), DayOf(stamps[|stamps| - 1]));
      }
    }
  }

  /** The number of days the dict comprehension initialises (`range(days)` is
      empty for `days <= 0`). */
  function WindowLength(days: int): nat {
    if days > 0 then days else 0
  }

  /** The dict comprehension of admin.py: the dates today, today-1, ...,
      today-(days-1), in that order, each with count 0. */
  function ZeroBuckets(today: int, days: int): (r: Dict<int, int>)
    ensures |r| == WindowLength(days)
    ensures forall i :: 0 <= i < |r| ==> r[i] == (today - i, 0)
  {
    seq(WindowLength(days), i requires 0 <= i < WindowLength(days) => (today - i, 0))
  }

  predicate IsZeroBucketDay(today: int, days: int, k: int) {
    today - WindowLength(days) < k <= today
  }

  /** What the response of `feedback_count` / `login_count` is, given the
      event timestamps of its collection:
      - it is a dict (distinct keys);
      - its first `days` entries are today, today-1, ..., in that order;
      - its keys are those days and the days of kept events (the extra ones
        come after, in ascending order);
      - each key carries the number of kept events on its day (0 if none);
      - its values add up to the number of kept events. */
  ghost predicate IsDayCountResponse(r: Dict<int, int>, stamps: seq<int>, now: int, days: int) {
    var start := WindowStart(now, days);
    var today := DayOf(now);
    && DistinctKeys(r)
    && |r| >= WindowLength(days)
    && (forall i :: 0 <= i < WindowLength(days) ==> r[i].0 == today - i)
    && (forall i, j :: WindowLength(days) <= i < j < |r| ==> r[i].0 < r[j].0)
    && (forall k :: HasKey(r, k) <==> IsZeroBucketDay(today, days, k) || CountOnDay(stamps, start, k) > 0)
    && (forall k :: Get(r, k, 0) == CountOnDay(stamps, start, k))
    && SumOf(Values(r)) == CountInWindow(stamps, start)
  }

  lemma ZeroBucketKeys(today: int, days: int, k: int)
    ensures HasKey(ZeroBuckets(today, days), k) <==> IsZeroBucketDay(today, days, k)
    ensures Get(ZeroBuckets(today, days), k, 0) == 0
  {
    var z := ZeroBuckets(today, days);
    if IsZeroBucketDay(today, days, k) {
      assert z[today - k].0 == k;
    }
    match IndexOf(z, k)
    case None =>
    case Some(i) =>
  }

  lemma ZeroBucketSum(today: int, days: int)
    ensures SumOf(Values(ZeroBuckets(today, days))) == 0
  {
    var v := Values(ZeroBuckets(today, days));
    var n := |v|;
    var j := 0;
    while j < n
      invariant 0 <= j <= n
      invariant SumOf(v[..j]) == 0
    {
      assert v[..j + 1][..j] == v[..j];
      j := j + 1;
    }
    assert v[..n] == v;
  }

  lemma PrefixIsPut(g: Dict<int, int>, j: nat)
    requires j < |g| && DistinctKeys(g)
    ensures g[..j + 1] == Put(g[..j], g[j].0, g[j].1)
    ensures Get(g[..j], g[j].0, 0) == 0
  {
    assert !HasKey(g[..j], g[j].0);
  }

  lemma PrefixSum(g: Dict<int, int>, j: nat)
    requires j < |g|
    ensures SumOf(Values(g[..j + 1])) == SumOf(Values(g[..j])) + g[j].1
  {
    SumValuesSnoc(g[..j + 1]);
    assert g[..j + 1][..j] == g[..j];
  }

  /** The state of the response after the first `j` groups were assigned
      over the zero buckets. */
  ghost predicate BucketsAfter(r: Dict<int, int>, groups: Dict<int, int>, j: nat, today: int, days: int)
    requires j <= |groups|
  {
    var n := WindowLength(days);
    && DistinctKeys(r)
    && |r| >= n
    && (forall i :: 0 <= i < n ==> r[i].0 == today - i)
    && (forall i :: n <= i < |r| ==> HasKey(groups[..j], r[i].0))
    && (forall i, i' :: n <= i < i' < |r| ==> r[i].0 < r[i'].0)
    && (forall k :: HasKey(r, k) <==> IsZeroBucketDay(today, days, k) || HasKey(groups[..j], k))
    && (forall k :: Get(r, k, 0) == Get(groups[..j], k, 0))
    && SumOf(Values(r)) == SumOf(Values(groups[..j]))
  }

  lemma BucketsStart(today: int, days: int, groups: Dict<int, int>)
    ensures BucketsAfter(ZeroBuckets(today, days), groups, 0, today, days)
  {
    ZeroBucketSum(today, days);
    forall k ensures HasKey(ZeroBuckets(today, days), k) <==> IsZeroBucketDay(today, days, k) || HasKey(groups[..0], k)
      ensures Get(ZeroBuckets(today, days), k, 0) == Get(groups[..0], k, 0)
    {
      ZeroBucketKeys(today, days, k);
    }
  }

  lemma PrefixKeys(groups: Dict<int, int>, j: nat, k: int)
    requires j < |groups|
    ensures HasKey(groups[..j + 1], k) <==> HasKey(groups[..j], k) || k == groups[j].0
  {
    if HasKey(groups[..j], k) {
      var m :| 0 <= m < j && groups[m].0 == k;
      assert groups[..j + 1][m].0 == k;
    }
    if HasKey(groups[..j + 1], k) && k != groups[j].0 {
      var m :| 0 <= m < j + 1 && groups[m].0 == k;
      assert groups[..j][m].0 == k;
    }
    assert groups[..j + 1][j].0 == groups[j].0;
  }

  lemma StepValues(r: Dict<int, int>, groups: Dict<int, int>, j: nat, today: int, days: int)
    requires j < |groups| && StrictlyAscending(groups)
    requires BucketsAfter(r, groups, j, today, days)
    ensures var r' := Put(r, groups[j].0, groups[j].1);
      && (forall k :: Get(r', k, 0) == Get(groups[..j + 1], k, 0))
      && SumOf(Values(r')) == SumOf(Values(groups[..j + 1]))
  {
    var (d, c) := groups[j];
    AscendingDistinct(groups);
    PrefixIsPut(groups, j);
    PrefixSum(groups, j);
    SumAfterPut(r, d, c);
    forall k ensures Get(Put(r, d, c), k, 0) == Get(groups[..j + 1], k, 0) {
      GetPut(r, d, c, k, 0);
      GetPut(groups[..j], d, c, k, 0);
    }
  }

  lemma StepKeys(r: Dict<int, int>, groups: Dict<int, int>, j: nat, today: int, days: int)
    requires j < |groups| && StrictlyAscending(groups)
    requires BucketsAfter(r, groups, j, today, days)
    ensures var r' := Put(r, groups[j].0, groups[j].1);
      && DistinctKeys(r')
      && (forall k :: HasKey(r', k) <==> IsZeroBucketDay(today, days, k) || HasKey(groups[..j + 1], k))
  {
    var (d, c) := groups[j];
    PutDistinct(r, d, c);
    forall k ensures HasKey(Put(r, d, c), k) <==> HasKey(r, k) || k == d {
      GetPut(r, d, c, k, 0);
      if HasKey(r, k) {
        var m :| 0 <= m < |r| && r[m].0 == k;
        assert Put(r, d, c)[m].0 == k;
      }
    }
    forall k ensures HasKey(groups[..j + 1], k) <==> HasKey(groups[..j], k) || k == d {
      PrefixKeys(groups, j, k);
    }
  }

  lemma StepOrder(r: Dict<int, int>, groups: Dict<int, int>, j: nat, today: int, days: int)
    requires j < |groups| && StrictlyAscending(groups)
    requires BucketsAfter(r, groups, j, today, days)
    ensures var r' := Put(r, groups[j].0, groups[j].1);
      var n := WindowLength(days);
      && |r'| >= n
      && (forall i :: 0 <= i < n ==> r'[i].0 == today - i)
      && (forall i :: n <= i < |r'| ==> HasKey(groups[..j + 1], r'[i].0))
      && (forall i, i' :: n <= i < i' < |r'| ==> r'[i].0 < r'[i'].0)
  {
    var (d, c) := groups[j];
    var n := WindowLength(days);
    forall i | n <= i < |r| ensures HasKey(groups[..j + 1], r[i].0) {
      PrefixKeys(groups, j, r[i].0);
    }
    PrefixKeys(groups, j, d);
    if !HasKey(r, d) {
      forall i | n <= i < |r| ensures r[i].0 < d {
        var m :| 0 <= m < j && groups[m].0 == r[i].0;
      }
    }
  }

  /** Assigning group `j` (`response[count["_id"]] = count[...]`) keeps the
      state description. */
  lemma BucketsStep(r: Dict<int, int>, groups: Dict<int, int>, j: nat, today: int, days: int)
    requires j < |groups| && StrictlyAscending(groups)
    requires BucketsAfter(r, groups, j, today, days)
    ensures BucketsAfter(Put(r, groups[j].0, groups[j].1), groups, j + 1, today, days)
  {
    StepValues(r, groups, j, today, days);
    StepKeys(r, groups, j, today, days);
    StepOrder(r, groups, j, today, days);
  }

  /** The shared body of `feedback_count` and `login_count` (admin.py:74-95
      and 100-122): zero buckets for the window, then one assignment per
      aggregated group. */
  method DayCounts(stamps: seq<int>, now: int, days: int) returns (response: Dict<int, int>)
    ensures IsDayCountResponse(response, stamps, now, days)
  {
    var start := WindowStart(now, days);
    var today := DayOf(now);
    var groups := Aggregate(stamps, start);
    response := ZeroBuckets(today, days);
    BucketsStart(today, days, groups);
    var j := 0;
    while j < |groups|
      invariant 0 <= j <= |groups|
      invariant BucketsAfter(response, groups, j, today, days)
    {
      BucketsStep(response, groups, j, today, days);
      response := Put(response, groups[j].0, groups[j].1);
      j := j + 1;
    }
    assert groups[..j] == groups;
    AggregateTotal(stamps, start);
    forall k ensures HasKey(response, k) <==> IsZeroBucketDay(today, days, k) || CountOnDay(stamps, start, k) > 0
      ensures Get(response, k, 0) == CountOnDay(stamps, start, k)
    {
      AggregateCounts(stamps, start, k);
    }
  }

  function FeedbackDates(fs: seq<Feedback>): (r: seq<int>)
    ensures |r| == |fs| && forall i :: 0 <= i < |fs| ==> r[i] == fs[i].date
  {
    seq(|fs|, i requires 0 <= i < |fs| => fs[i].date)
  }

  function LoginDates(ls: seq<LogEntry>): (r: seq<int>)
    ensures |r| == |ls| && forall i :: 0 <= i < |ls| ==> r[i] == ls[i].date
  {
    seq(|ls|, i requires 0 <= i < |ls| => ls[i].date)
  }

  /** `GET /admin/feedback_count?days=…` */
  method FeedbackCount(db: Database, now: int, days: int) returns (response: Dict<int, int>)
    ensures IsDayCountResponse(response, FeedbackDates(db.feedback), now, days)
  {
    response := DayCounts(FeedbackDates(db.feedback), now, days);
  }

  /** `GET /admin/login_count?days=…` */
  method LoginCount(db: Database, now: int, days: int) returns (response: Dict<int, int>)
    ensures IsDayCountResponse(response, LoginDates(db.userLogs), now, days)
  {
    response := DayCounts(LoginDates(db.userLogs), now, days);
  }

  /** An event on the day exactly `days` ago that is not older than
      `now - days` is bucketed under that day: a key beyond the `days`
      zero buckets. */
  lemma {:induction false} WindowEdgeAddsKey(r: Dict<int, int>, stamps: seq<int>, now: int, days: int, i: nat)
    requires days > 0 && i < |stamps|
    requires IsDayCountResponse(r, stamps, now, days)
    requires InWindow(stamps[i], WindowStart(now, days)) && DayOf(stamps[i]) == DayOf(now) - days
    ensures HasKey(r, DayOf(now) - days)
    ensures |r| > days
  {
    var start := WindowStart(now, days);
    var d := DayOf(now) - days;
    CountOnDayPositive(stamps, start, i);
    assert HasKey(r, d);
    var m :| 0 <= m < |r| && r[m].0 == d;
    if m < days {
      assert false;
    }
  }

  lemma {:induction false} CountOnDayPositive(stamps: seq<int>, start: int, i: nat)
    requires i < |stamps| && InWindow(stamps[i], start)
    ensures CountOnDay(stamps, start, DayOf(stamps[i])) > 0
  {
    if i < |stamps| - 1 {
      assert stamps[..|stamps| - 1][i] == stamps[i];
      CountOnDayPositive(stamps[..|stamps| - 1], start, i);
    }
  }

  /** A key after the zero buckets is not one of the zero-bucket days. */
  lemma KeyAtWindowDay(r: Dict<int, int>, today: int, days: int, m: nat)
    requires DistinctKeys(r) && |r| >= WindowLength(days) && m < |r|
    requires forall i :: 0 <= i < WindowLength(days) ==> r[i].0 == today - i
    requires m >= WindowLength(days)
    ensures !IsZeroBucketDay(today, days, r[m].0)
  {
    assert forall k :: IsZeroBucketDay(today, days, k) ==> r[today - k].0 == k;
  }

  /** A concrete case of the edge: with `days = 5` and `now` at noon of day
      10, an event at exactly `now - 5 days` (day 5) gives six keys, and
      day 5 carries its count. */
  lemma WindowEdgeExample(r: Dict<int, int>)
    requires IsDayCountResponse(r, [5 * DaySeconds + 43200], 10 * DaySeconds + 43200, 5)
    ensures |r| == 6 && r[5] == (5, 1)
  {
    var s := [5 * DaySeconds + 43200];
    var now := 10 * DaySeconds + 43200;
    WindowEdgeAddsKey(r, s, now, 5, 0);
    assert CountOnDay(s, WindowStart(now, 5), 5) == 1;
    forall k | HasKey(r, k) ensures 5 <= k <= 10 {
      if !IsZeroBucketDay(10, 5, k) {
        assert CountOnDay(s, WindowStart(now, 5), k) > 0;
      }
    }
    assert HasKey(r, r[5].0);
    assert forall i :: 0 <= i < 5 ==> r[i].0 == 10 - i;
    assert forall i :: 0 <= i < 5 ==> r[i].0 != r[5].0;
    assert r[5].0 == 5;
    if |r| > 6 {
      var k := r[6].0;
      assert HasKey(r, k);
      assert 5 < k <= 10;
      KeyAtWindowDay(r, 10, 5, 6);
      assert false;
    }
    assert IndexOf(r, 5) == Some(5);
  }

  /** `feedback_rate` / `login_rate` (admin.py:135-136 and 146-147): kept
      events divided by `days`, and 0 when `days` is 0. Flask's `<int:days>`
      only matches non-negative numbers. */
  function Rate(stamps: seq<int>, now: int, days: nat): (r: real)
    ensures r >= 0.0
    ensures days == 0 ==> r == 0.0
    ensures days > 0 ==> r * days as real == CountInWindow(stamps, WindowStart(now, days)) as real
  {
    if days > 0 then CountInWindow(stamps, WindowStart(now, days)) as real / days as real else 0.0
  }

  /** The rate times the window length is the total of the per-day buckets
      of the same window. */
  lemma RateIsBucketMean(r: Dict<int, int>, stamps: seq<int>, now: int, days: nat)
    requires days > 0 && IsDayCountResponse(r, stamps, now, days)
    ensures Rate(stamps, now, days) * days as real == SumOf(Values(r)) as real
  {
  }

  /** `GET /admin/feedback_rate/<days>` (admin.py:129-138): the feedback
      documents dated within the window, per day of the window. */
  function FeedbackRate(db: Database, now: int, days: nat): (r: real)
    reads db
    ensures days == 0 ==> r == 0.0
    ensures days > 0 ==> r * days as real == CountInWindow(FeedbackDates(db.feedback), WindowStart(now, days)) as real
    ensures 0.0 <= r * days as real <= |db.feedback| as real
  {
    Rate(FeedbackDates(db.feedback), now, days)
  }

  /** `GET /admin/login_rate/<days>` (admin.py:140-149): the login-log
      entries dated within the window, per day of the window. */
  function LoginRate(db: Database, now: int, days: nat): (r: real)
    reads db
    ensures days == 0 ==> r == 0.0
    ensures days > 0 ==> r * days as real == CountInWindow(LoginDates(db.userLogs), WindowStart(now, days)) as real
    ensures 0.0 <= r * days as real <= |db.userLogs| as real
  {
    Rate(LoginDates(db.userLogs), now, days)
  }
}
