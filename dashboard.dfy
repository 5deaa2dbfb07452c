/** The admin dashboard of frontend/.../admin/admin_dashboard.js: the
    `days` input, the fetches it triggers, and the date labels of the two
    line charts. Dates are UTC day numbers; `today` is a parameter. */
module Dashboard {
  import AdminAnalytics

  /** What `parseInt(text, 10)` yields. */
  datatype Parsed = Num(n: int) | NaN

  /** One of the three requests a refresh sends. */
  datatype Request = Counts(days: Parsed) | FeedbackRateOf(days: Parsed) | LoginRateOf(days: Parsed)

  const Warning: string := "Please enter a number of days greater than or equal to 5."

  /** `fetchCounts(v)`, `fetchFeedbackRate(v)`, `fetchLoginRate(v)` */
  function Refresh(v: Parsed): (r: seq<Request>)
    ensures |r| == 3 && forall i :: 0 <= i < 3 ==> r[i].days == v
  {
    [Counts(v), FeedbackRateOf(v), LoginRateOf(v)]
  }

  /** `value < 5` (false for NaN). */
  predicate TooFew(v: Parsed) {
    v.Num? && v.n < 5
  }

  /** The effect's gate `days >= 5` (false for NaN). */
  predicate GateOpen(v: Parsed) {
    v.Num? && v.n >= 5
  }

  /** The requests one edit of the input causes: the handler's own refresh
      unless `value < 5`, then the effect's refresh when `days` changed and
      passes the gate. */
  function RequestsAfterChange(before: Parsed, value: Parsed): seq<Request> {
    (if TooFew(value) then [] else Refresh(value))
      + (if value != before && GateOpen(value) then Refresh(value) else [])
  }

  /** An accepted new value is fetched twice (handler and effect); a value
      below 5 is not fetched; NaN slips past both tests of the handler and is
      fetched once, with `days=NaN`. */
  lemma ChangeFetches(before: Parsed, value: Parsed)
    ensures GateOpen(value) && value != before ==> RequestsAfterChange(before, value) == Refresh(value) + Refresh(value)
    ensures GateOpen(value) && value == before ==> RequestsAfterChange(before, value) == Refresh(value)
    ensures TooFew(value) ==> RequestsAfterChange(before, value) == []
    ensures value == NaN ==> RequestsAfterChange(before, value) == Refresh(NaN)
    ensures |RequestsAfterChange(before, value)| > 0 <==> !TooFew(value)
  {
  }

  class DashboardView {
    var days: Parsed
    var warning: string
    /** Every request sent so far, in order. */
    var requests: seq<Request>

    /** `useState(5)` and `useState('')`, then the first run of the `[days]`
        effect on mount, which fetches the initial five days once. */
    constructor ()
      ensures days == Num(5) && warning == "" && requests == Refresh(Num(5))
    {
      days, warning, requests := Num(5), "", [];
      new;
      DaysEffect();
    }

    /** The effect on `[days]` (admin_dashboard.js:67-73). */
    method DaysEffect()
      modifies this
      ensures days == old(days) && warning == old(warning)
      ensures requests == old(requests) + (if GateOpen(days) then Refresh(days) else [])
    {
      if days.Num? && days.n >= 5 {
        requests := requests + Refresh(days);
      }
    }

    /** `handleDaysChange` (admin_dashboard.js:75-86): `days` takes the parsed
        value whatever it is. */
    method HandleDaysChange(value: Parsed)
      modifies this
      ensures days == value
      ensures warning == (if TooFew(value) then Warning else "")
      ensures requests == old(requests) + (if TooFew(value) then [] else Refresh(value))
    {
      days := value;
      if value.Num? && value.n < 5 {
        warning := Warning;
      } else {
        warning := "";
        requests := requests + Refresh(value);
      }
    }

    /** An edit followed by the effect React runs when `days` changed. */
    method ChangeDays(value: Parsed)
      modifies this
      ensures days == value
      ensures requests == old(requests) + RequestsAfterChange(old(days), value)
    {
      var before := days;
      HandleDaysChange(value);
      if value != before {
        DaysEffect();
      }
    }
  }

  /** `Array.from({length: days}, …)` has no entries for a NaN or negative
      length. */
  function LabelCount(d: Parsed): nat {
    if d.Num? && d.n > 0 then d.n else 0
  }

  /** The chart labels (admin_dashboard.js:94-97 and 113-116, the same
      expression for both charts): entry `i` is the day `days - 1 - i` days
      before today. */
  function Labels(today: int, d: Parsed): (r: seq<int>)
    ensures |r| == LabelCount(d)
  {
    var n := LabelCount(d);
    seq(n, i requires 0 <= i < n => today - (n - 1 - i))
  }

  /** The labels are consecutive days, oldest first, ending today. */
  lemma LabelsConsecutive(today: int, d: Parsed)
    ensures var r := Labels(today, d);
      && (forall i :: 0 <= i < |r| - 1 ==> r[i + 1] == r[i] + 1)
      && (|r| > 0 ==> r[|r| - 1] == today && r[0] == today - (|r| - 1))
  {
  }

  /** The labels are the backend's zero-initialised bucket days in reverse
      order, so they cover the same window. */
  lemma LabelsAreBucketsReversed(today: int, days: int)
    ensures var r := Labels(today, Num(days));
      var z := AdminAnalytics.ZeroBuckets(today, days);
      && |r| == |z|
      && (forall i :: 0 <= i < |r| ==> r[i] == z[|z| - 1 - i].0)
  {
  }
}
