/** The decision rules of backend/app/pipeline.py: the tiers of
    `calculate_feedback_score`, the ISSUE / COMPLIMENT / NEUTRAL rule of
    `classify_feedback`, the keyword classifier `classify_issues` and the
    template choice of `issue_close_mail`. The sentiment model and the
    library-record statistics are inputs. */
module Pipeline {
  import opened Options
  import opened OrderedDict
  import opened Text

  // ---------------------------------------------------------------------
  // calculate_feedback_score

  datatype Priority = High | Medium | Low

  function Rank(p: Priority): nat {
    match p
    case Low => 0
    case Medium => 1
    case High => 2
  }

  /** The priority tiers of pipeline.py:73-78. */
  function Tier(score: real): (p: Priority)
    ensures p == High <==> score >= 0.7
    ensures p == Low <==> score < 0.4
  {
    if score >= 0.7 then High
    else if score >= 0.4 then Medium
    else Low
  }

  /** A higher score never gets a lower priority. */
  lemma TierMonotone(a: real, b: real)
    requires a <= b
    ensures Rank(Tier(a)) <= Rank(Tier(b))
  {
  }

  /** `calculate_feedback_score(card)`: a card number starting with 'C'
      (faculty) is accepted before any lookup; a card without library records
      gets the lowest score; otherwise the tier follows the weighted score,
      which is given here as `weighted` (its computation from the records is
      outside this model). */
  function FeedbackScore(card: string, hasRecords: bool, weighted: real): (r: (real, Priority))
    ensures StartsWith(card, "C") ==> r == (1.0, High)
    ensures !StartsWith(card, "C") && !hasRecords ==> r == (0.0, Low)
    ensures !StartsWith(card, "C") && hasRecords ==> r == (weighted, Tier(weighted))
  {
    if StartsWith(card, "C") then (1.0, High)
    else if !hasRecords then (0.0, Low)
    else (weighted, Tier(weighted))
  }

  // ---------------------------------------------------------------------
  // classify_feedback

  /** One `{label, score}` entry of the sentiment model's output. */
  datatype Sentiment = Sentiment(kind: string, score: real)

  /** Python's `max(xs, key=key)`: the position of the first element with
      the largest key. */
  function FirstMax<T>(xs: seq<T>, key: T -> real): (i: nat)
    requires |xs| > 0
    ensures i < |xs|
    ensures forall j :: 0 <= j < |xs| ==> key(xs[j]) <= key(xs[i])
    ensures forall j :: 0 <= j < i ==> key(xs[j]) < key(xs[i])
  {
    if |xs| == 1 then 0
    else
      var i := FirstMax(xs[..|xs| - 1], key);
      if key(xs[|xs| - 1]) > key(xs[i]) then |xs| - 1 else i
  }

  function SentimentScore(s: Sentiment): real {
    s.score
  }

  /** `max(result, key=lambda x: x['score'])` */
  function TopSentiment(results: seq<Sentiment>): Sentiment
    requires |results| > 0
  {
    results[FirstMax(results, SentimentScore)]
  }

  const IssueKeywords: seq<string> :=
    ["problem", "issue", "error", "fix", "broken", "not working", "improve", "complaint", "fail"]

  predicate MentionsIssue(text: string) {
    exists k :: 0 <= k < |IssueKeywords| && Contains(Lower(text), IssueKeywords[k])
  }

  datatype Label = IssueLabel | Compliment | Neutral

  /** The decision of pipeline.py:110-123 over the sentiment output. */
  function ClassifyFeedback(text: string, results: seq<Sentiment>): (r: (Label, real))
    requires |results| > 0
    ensures var top := TopSentiment(results);
      && (forall j :: 0 <= j < |results| ==> results[j].score <= r.1)
      && r.1 == top.score
      && (r.0 == IssueLabel <==> MentionsIssue(text) || top.kind == "NEGATIVE")
      && (r.0 == Compliment <==> !MentionsIssue(text) && top.kind == "POSITIVE")
  {
    var top := TopSentiment(results);
    if MentionsIssue(text) || top.kind == "NEGATIVE" then (IssueLabel, top.score)
    else if top.kind == "POSITIVE" then (Compliment, top.score)
    else (Neutral, top.score)
  }

  /** A text naming an issue keyword is an ISSUE whatever the sentiment. */
  lemma KeywordForcesIssue(text: string, results: seq<Sentiment>, k: nat)
    requires |results| > 0 && k < |IssueKeywords|
    requires Contains(Lower(text), IssueKeywords[k])
    ensures ClassifyFeedback(text, results).0 == IssueLabel
  {
  }

  // ---------------------------------------------------------------------
  // classify_issues

  datatype CategoryConfig = CategoryConfig(name: string, keywords: seq<string>)

  /** The parsed `dataset/categories.json`. */
  datatype Config = Config(categories: seq<CategoryConfig>, miscName: string)

  datatype Classification = ConfigError | Category(name: string)

  /** How many of the keyword entries occur in the issue text (both
      lower-cased); an entry counts once however often it occurs. */
  function Hits(keywords: seq<string>, issue: string): (r: nat)
    ensures r <= |keywords|
  {
    if keywords == [] then 0
    else
      var hit := Contains(Lower(issue), Lower(keywords[|keywords| - 1]));
      Hits(keywords[..|keywords| - 1], issue) + (if hit then 1 else 0)
  }

  /** The score of a category name: the hits of every configured category of
      that name (a repeated name accumulates in `match_scores`). */
  function NameScore(cats: seq<CategoryConfig>, issue: string, name: string): (r: nat) {
    if cats == [] then 0
    else
      var last := cats[|cats| - 1];
      NameScore(cats[..|cats| - 1], issue, name) + (if last.name == name then Hits(last.keywords, issue) else 0)
  }

  /** The index of the first category named `name` with a hit, or `|cats|`. */
  function FirstHit(cats: seq<CategoryConfig>, issue: string, name: string): (r: nat)
    ensures r <= |cats|
    ensures r < |cats| ==> cats[r].name == name && Hits(cats[r].keywords, issue) > 0
    ensures forall j :: 0 <= j < r ==> !(cats[j].name == name && Hits(cats[j].keywords, issue) > 0)
  {
    if cats == [] then 0
    else
      var init := cats[..|cats| - 1];
      var f := FirstHit(init, issue, name);
      var last := cats[|cats| - 1];
      if f < |init| then f
      else if last.name == name && Hits(last.keywords, issue) > 0 then |init|
      else |cats|
  }

  /** `match_scores[name] += h` on a defaultdict, done only when `h > 0`
      (reading a missing key is what inserts it). */
  function AddHits(scores: Dict<string, int>, name: string, h: nat): Dict<string, int> {
    if h > 0 then Put(scores, name, Get(scores, name, 0) + h) else scores
  }

  /** `match_scores` after the categories `cats` were scanned. */
  function Tally(cats: seq<CategoryConfig>, issue: string): Dict<string, int> {
    if cats == [] then []
    else
      var last := cats[|cats| - 1];
      AddHits(Tally(cats[..|cats| - 1], issue), last.name, Hits(last.keywords, issue))
  }

  /** One more hit for the same name is one more `+= 1`. */
  lemma AddOneHit(scores: Dict<string, int>, name: string, h: nat)
    ensures Put(AddHits(scores, name, h), name, Get(AddHits(scores, name, h), name, 0) + 1)
      == AddHits(scores, name, h + 1)
  {
    if h > 0 {
      AddOneMoreHit(scores, name, h);
    } else {
      AddFirstHit(scores, name, h);
    }
  }

  lemma AddFirstHit(scores: Dict<string, int>, name: string, h: nat)
    requires h == 0
    ensures Put(AddHits(scores, name, h), name, Get(AddHits(scores, name, h), name, 0) + 1)
      == AddHits(scores, name, h + 1)
  {
  }

  lemma AddOneMoreHit(scores: Dict<string, int>, name: string, h: nat)
    requires h > 0
    ensures Put(AddHits(scores, name, h), name, Get(AddHits(scores, name, h), name, 0) + 1)
      == AddHits(scores, name, h + 1)
  {
    PutIncrement(scores, name, Get(scores, name, 0) + h);
  }

  /** `d[k] = v` followed by `d[k] += 1` is `d[k] = v + 1`. */
  lemma PutIncrement(d: Dict<string, int>, k: string, v: int)
    ensures Put(Put(d, k, v), k, Get(Put(d, k, v), k, 0) + 1) == Put(d, k, v + 1)
  {
    GetPutSame(d, k, v, 0);
    PutPut(d, k, v, v + 1);
  }

  predicate AllPositive(t: Dict<string, int>) {
    forall p :: 0 <= p < |t| ==> t[p].1 > 0
  }

  /** The tally has one entry per name, each with a positive count. */
  lemma {:induction false} TallyShape(cats: seq<CategoryConfig>, issue: string)
    ensures DistinctKeys(Tally(cats, issue))
    ensures AllPositive(Tally(cats, issue))
  {
    if cats != [] {
      var init := cats[..|cats| - 1];
      var last := cats[|cats| - 1];
      TallyShape(init, issue);
      var t := Tally(init, issue);
      if Hits(last.keywords, issue) > 0 {
        PutDistinct(t, last.name, Get(t, last.name, 0) + Hits(last.keywords, issue));
      }
    }
  }

  /** The tally holds each name's score. */
  lemma {:induction false} TallyGet(cats: seq<CategoryConfig>, issue: string, n: string)
    ensures Get(Tally(cats, issue), n, 0) == NameScore(cats, issue, n)
  {
    if cats != [] {
      var init := cats[..|cats| - 1];
      var last := cats[|cats| - 1];
      TallyGet(init, issue, n);
      TallyShape(init, issue);
      GetAddHits(Tally(init, issue), last.name, Hits(last.keywords, issue), n);
    }
  }

  /** `+= h` adds `h` to that name's count and to no other. */
  lemma GetAddHits(t: Dict<string, int>, name: string, h: nat, n: string)
    requires DistinctKeys(t)
    ensures Get(AddHits(t, name, h), n, 0) == Get(t, n, 0) + (if n == name then h else 0)
  {
    if h > 0 {
      GetPut(t, name, Get(t, name, 0) + h, n, 0);
    }
  }

  /** The tally has an entry exactly for the names with a positive score. */
  lemma TallyHasKey(cats: seq<CategoryConfig>, issue: string, n: string)
    ensures HasKey(Tally(cats, issue), n) <==> NameScore(cats, issue, n) > 0
  {
    TallyShape(cats, issue);
    TallyGet(cats, issue, n);
  }

  /** The entries of `t` are listed in the order of their names' first hits. */
  ghost predicate InFirstHitOrder(cats: seq<CategoryConfig>, issue: string, t: Dict<string, int>) {
    && (forall p :: 0 <= p < |t| ==> FirstHit(cats, issue, t[p].0) < |cats|)
    && (forall p, q :: 0 <= p < q < |t| ==> FirstHit(cats, issue, t[p].0) < FirstHit(cats, issue, t[q].0))
  }

  /** A name with a hit among the first categories keeps its first hit. */
  lemma FirstHitKept(init: seq<CategoryConfig>, last: CategoryConfig, issue: string, n: string)
    requires FirstHit(init, issue, n) < |init|
    ensures FirstHit(init + [last], issue, n) == FirstHit(init, issue, n)
  {
    assert (init + [last])[..|init|] == init;
  }

  lemma {:induction false} TallyOrder(cats: seq<CategoryConfig>, issue: string)
    ensures InFirstHitOrder(cats, issue, Tally(cats, issue))
  {
    if cats != [] {
      var init := cats[..|cats| - 1];
      var last := cats[|cats| - 1];
      assert cats == init + [last];
      TallyOrder(init, issue);
      var t := Tally(init, issue);
      if |Tally(cats, issue)| == |t| {
        TallyOrderSameKeys(init, last, issue);
      } else {
        TallyOrderNewKey(init, last, issue);
      }
    }
  }

  /** A step that adds no name keeps the order. */
  lemma TallyOrderSameKeys(init: seq<CategoryConfig>, last: CategoryConfig, issue: string)
    requires InFirstHitOrder(init, issue, Tally(init, issue))
    requires |Tally(init + [last], issue)| == |Tally(init, issue)|
    ensures InFirstHitOrder(init + [last], issue, Tally(init + [last], issue))
  {
    var cats := init + [last];
    assert cats[..|cats| - 1] == init;
    var t := Tally(init, issue);
    var r := Tally(cats, issue);
    forall p | 0 <= p < |r| ensures r[p].0 == t[p].0 && FirstHit(cats, issue, r[p].0) == FirstHit(init, issue, t[p].0) {
      FirstHitKept(init, last, issue, t[p].0);
    }
  }

  /** A step that adds a name appends it last, with the latest first hit. */
  lemma TallyOrderNewKey(init: seq<CategoryConfig>, last: CategoryConfig, issue: string)
    requires InFirstHitOrder(init, issue, Tally(init, issue))
    requires |Tally(init + [last], issue)| != |Tally(init, issue)|
    ensures InFirstHitOrder(init + [last], issue, Tally(init + [last], issue))
  {
    var t := Tally(init, issue);
    var e := NewKeyAppended(init, last, issue);
    NewKeyFirstHit(init, last, issue);
    forall p | 0 <= p < |t| ensures FirstHit(init + [last], issue, t[p].0) == FirstHit(init, issue, t[p].0) {
      FirstHitKept(init, last, issue, t[p].0);
    }
    AppendInOrder(init, init + [last], issue, t, e);
  }

  /** A step that changes the length appends the category's name. */
  lemma NewKeyAppended(init: seq<CategoryConfig>, last: CategoryConfig, issue: string) returns (e: (string, int))
    requires |Tally(init + [last], issue)| != |Tally(init, issue)|
    ensures Tally(init + [last], issue) == Tally(init, issue) + [e] && e.0 == last.name
    ensures !HasKey(Tally(init, issue), last.name) && Hits(last.keywords, issue) > 0
  {
    var cats := init + [last];
    assert cats[..|cats| - 1] == init;
    var t := Tally(init, issue);
    e := (last.name, Get(t, last.name, 0) + Hits(last.keywords, issue));
  }

  /** The appended name has its first hit at the new category. */
  lemma NewKeyFirstHit(init: seq<CategoryConfig>, last: CategoryConfig, issue: string)
    requires !HasKey(Tally(init, issue), last.name) && Hits(last.keywords, issue) > 0
    ensures FirstHit(init + [last], issue, last.name) == |init|
  {
    TallyHasKey(init, issue, last.name);
    NameScoreZeroNoHit(init, issue, last.name);
    var cats := init + [last];
    assert cats[..|cats| - 1] == init;
  }

  lemma AppendInOrder(init: seq<CategoryConfig>, cats: seq<CategoryConfig>, issue: string,
                      t: Dict<string, int>, e: (string, int))
    requires |cats| == |init| + 1
    requires InFirstHitOrder(init, issue, t)
    requires forall p :: 0 <= p < |t| ==> FirstHit(cats, issue, t[p].0) == FirstHit(init, issue, t[p].0)
    requires FirstHit(cats, issue, e.0) == |init|
    ensures InFirstHitOrder(cats, issue, t + [e])
  {
    var r := t + [e];
    AppendedBelow(init, cats, issue, t, e);
    forall p, q | 0 <= p < q < |r| ensures FirstHit(cats, issue, r[p].0) < FirstHit(cats, issue, r[q].0) {
      AppendedPair(init, cats, issue, t, e, p, q);
    }
  }

  lemma AppendedBelow(init: seq<CategoryConfig>, cats: seq<CategoryConfig>, issue: string,
                      t: Dict<string, int>, e: (string, int))
    requires |cats| == |init| + 1
    requires InFirstHitOrder(init, issue, t)
    requires forall p :: 0 <= p < |t| ==> FirstHit(cats, issue, t[p].0) == FirstHit(init, issue, t[p].0)
    requires FirstHit(cats, issue, e.0) == |init|
    ensures forall p :: 0 <= p < |t + [e]| ==> FirstHit(cats, issue, (t + [e])[p].0) < |cats|
  {
    forall p | 0 <= p < |t + [e]| ensures FirstHit(cats, issue, (t + [e])[p].0) < |cats| {
      if p < |t| {
        assert (t + [e])[p] == t[p];
      } else {
        assert (t + [e])[p] == e;
      }
    }
  }

  lemma AppendedPair(init: seq<CategoryConfig>, cats: seq<CategoryConfig>, issue: string,
                     t: Dict<string, int>, e: (string, int), p: nat, q: nat)
    requires |cats| == |init| + 1
    requires InFirstHitOrder(init, issue, t)
    requires forall p :: 0 <= p < |t| ==> FirstHit(cats, issue, t[p].0) == FirstHit(init, issue, t[p].0)
    requires FirstHit(cats, issue, e.0) == |init|
    requires p < q < |t| + 1
    ensures FirstHit(cats, issue, (t + [e])[p].0) < FirstHit(cats, issue, (t + [e])[q].0)
  {
    assert (t + [e])[p] == t[p];
    assert FirstHit(init, issue, t[p].0) < |init|;
    if q < |t| {
      assert (t + [e])[q] == t[q];
    } else {
      assert (t + [e])[q] == e;
    }
  }

  /** A name without score has no hit yet. */
  lemma {:induction false} NameScoreZeroNoHit(cats: seq<CategoryConfig>, issue: string, name: string)
    requires NameScore(cats, issue, name) == 0
    ensures FirstHit(cats, issue, name) == |cats|
  {
    if cats != [] {
      NameScoreZeroNoHit(cats[..|cats| - 1], issue, name);
    }
  }

  /** A category with a hit gives its name a positive score. */
  lemma {:induction false} HitGivesScore(cats: seq<CategoryConfig>, issue: string, j: nat)
    requires j < |cats| && Hits(cats[j].keywords, issue) > 0
    ensures NameScore(cats, issue, cats[j].name) >= Hits(cats[j].keywords, issue)
  {
    if j < |cats| - 1 {
      assert cats[..|cats| - 1][j] == cats[j];
      HitGivesScore(cats[..|cats| - 1], issue, j);
    }
  }

  function EntryCount(e: (string, int)): real {
    e.1 as real
  }

  predicate AnyHit(cats: seq<CategoryConfig>, issue: string) {
    exists j :: 0 <= j < |cats| && Hits(cats[j].keywords, issue) > 0
  }

  /** What `classify_issues` promises of a category it picks after some
      keyword matched: a configured name with a positive and the highest
      score, and strictly above every name whose first hit comes earlier in
      config order (ties go to the name hit first). */
  ghost predicate IsBestCategory(cats: seq<CategoryConfig>, issue: string, name: string) {
    && (exists j :: 0 <= j < |cats| && cats[j].name == name)
    && NameScore(cats, issue, name) > 0
    && (forall j :: 0 <= j < |cats| ==> NameScore(cats, issue, cats[j].name) <= NameScore(cats, issue, name))
    && (forall j :: 0 <= j < FirstHit(cats, issue, name) && Hits(cats[j].keywords, issue) > 0 ==>
          NameScore(cats, issue, cats[j].name) < NameScore(cats, issue, name))
  }

  /** The tally is empty exactly when no keyword matched. */
  lemma EmptyTallyNoHit(cats: seq<CategoryConfig>, issue: string)
    ensures Tally(cats, issue) == [] <==> !AnyHit(cats, issue)
  {
    if Tally(cats, issue) == [] {
      forall j | 0 <= j < |cats| ensures Hits(cats[j].keywords, issue) == 0 {
        if Hits(cats[j].keywords, issue) > 0 {
          HitGivesScore(cats, issue, j);
          TallyHasKey(cats, issue, cats[j].name);
          assert false;
        }
      }
    } else {
      TallyOrder(cats, issue);
      var f := FirstHit(cats, issue, Tally(cats, issue)[0].0);
      assert Hits(cats[f].keywords, issue) > 0;
    }
  }

  /** The first maximal tally entry is the best category. */
  lemma BestOfTally(cats: seq<CategoryConfig>, issue: string)
    requires Tally(cats, issue) != []
    ensures IsBestCategory(cats, issue, Tally(cats, issue)[FirstMax(Tally(cats, issue), EntryCount)].0)
  {
    var t := Tally(cats, issue);
    var b := FirstMax(t, EntryCount);
    forall j | 0 <= j < |t| ensures t[j].1 <= t[b].1 {
      assert EntryCount(t[j]) <= EntryCount(t[b]);
    }
    forall j | 0 <= j < b ensures t[j].1 < t[b].1 {
      assert EntryCount(t[j]) < EntryCount(t[b]);
    }
    BestAt(cats, issue, b);
  }

  lemma BestAt(cats: seq<CategoryConfig>, issue: string, b: nat)
    requires b < |Tally(cats, issue)|
    requires forall j :: 0 <= j < |Tally(cats, issue)| ==> Tally(cats, issue)[j].1 <= Tally(cats, issue)[b].1
    requires forall j :: 0 <= j < b ==> Tally(cats, issue)[j].1 < Tally(cats, issue)[b].1
    ensures IsBestCategory(cats, issue, Tally(cats, issue)[b].0)
  {
    var t := Tally(cats, issue);
    var best := t[b].0;
    TallyShape(cats, issue);
    TallyOrder(cats, issue);
    var f := FirstHit(cats, issue, best);
    assert f < |cats| && cats[f].name == best;
    ScoreAt(cats, issue, b);
    BestIsMax(cats, issue, b);
    BestBeatsEarlier(cats, issue, b);
  }

  /** The score of the name at position `b` of the tally is its count. */
  lemma ScoreAt(cats: seq<CategoryConfig>, issue: string, b: nat)
    requires b < |Tally(cats, issue)|
    ensures NameScore(cats, issue, Tally(cats, issue)[b].0) == Tally(cats, issue)[b].1 > 0
  {
    var t := Tally(cats, issue);
    TallyShape(cats, issue);
    IndexOfFirst(t, t[b].0, b);
    TallyGet(cats, issue, t[b].0);
  }

  /** A maximal tally entry scores at least as much as any configured name. */
  lemma BestIsMax(cats: seq<CategoryConfig>, issue: string, b: nat)
    requires b < |Tally(cats, issue)|
    requires forall j :: 0 <= j < |Tally(cats, issue)| ==> Tally(cats, issue)[j].1 <= Tally(cats, issue)[b].1
    ensures forall j :: 0 <= j < |cats| ==> NameScore(cats, issue, cats[j].name) <= NameScore(cats, issue, Tally(cats, issue)[b].0)
  {
    var t := Tally(cats, issue);
    ScoreAt(cats, issue, b);
    forall j | 0 <= j < |cats| ensures NameScore(cats, issue, cats[j].name) <= t[b].1 {
      var n := cats[j].name;
      TallyGet(cats, issue, n);
      match IndexOf(t, n)
      case None =>
      case Some(q) =>
    }
  }

  /** A maximal tally entry before which every entry is smaller beats every
      name hit earlier in config order. */
  lemma BestBeatsEarlier(cats: seq<CategoryConfig>, issue: string, b: nat)
    requires b < |Tally(cats, issue)|
    requires forall j :: 0 <= j < b ==> Tally(cats, issue)[j].1 < Tally(cats, issue)[b].1
    ensures var best := Tally(cats, issue)[b].0;
      forall j :: 0 <= j < FirstHit(cats, issue, best) && Hits(cats[j].keywords, issue) > 0 ==>
        NameScore(cats, issue, cats[j].name) < NameScore(cats, issue, best)
  {
    var best := Tally(cats, issue)[b].0;
    forall j | 0 <= j < FirstHit(cats, issue, best) && Hits(cats[j].keywords, issue) > 0
      ensures NameScore(cats, issue, cats[j].name) < NameScore(cats, issue, best)
    {
      EarlierHitScoresLess(cats, issue, b, j);
    }
  }

  lemma EarlierHitScoresLess(cats: seq<CategoryConfig>, issue: string, b: nat, j: nat)
    requires b < |Tally(cats, issue)|
    requires forall i :: 0 <= i < b ==> Tally(cats, issue)[i].1 < Tally(cats, issue)[b].1
    requires j < FirstHit(cats, issue, Tally(cats, issue)[b].0) && Hits(cats[j].keywords, issue) > 0
    ensures NameScore(cats, issue, cats[j].name) < NameScore(cats, issue, Tally(cats, issue)[b].0)
  {
    var t := Tally(cats, issue);
    var n := cats[j].name;
    ScoreAt(cats, issue, b);
    HitGivesScore(cats, issue, j);
    TallyHasKey(cats, issue, n);
    TallyGet(cats, issue, n);
    var q := IndexOf(t, n).value;
    assert FirstHit(cats, issue, t[q].0) <= j;
    TallyOrder(cats, issue);
    OrderReflects(cats, issue, t, q, b);
  }

  /** In first-hit order, an earlier first hit means an earlier entry. */
  lemma OrderReflects(cats: seq<CategoryConfig>, issue: string, t: Dict<string, int>, p: nat, q: nat)
    requires InFirstHitOrder(cats, issue, t) && p < |t| && q < |t|
    requires FirstHit(cats, issue, t[p].0) < FirstHit(cats, issue, t[q].0)
    ensures p < q
  {
  }

  /** What `classify_issues` returns: `ValueError` when the configuration
      cannot be loaded, the misc name when nothing matched, else the first
      name with the largest count in `match_scores`. */
  function Classify(issue: string, config: Option<Config>): Classification {
    if config.None? then ConfigError
    else
      var t := Tally(config.value.categories, issue);
      if t == [] then Category(config.value.miscName)
      else Category(t[FirstMax(t, EntryCount)].0)
  }

  /** The classifier's promise (pipeline.py:213-241): with no keyword hit at
      all the misc category; otherwise a configured name with a positive and
      the highest score, strictly above every name hit earlier in config
      order. */
  lemma ClassifyMeaning(issue: string, config: Option<Config>)
    ensures Classify(issue, config).ConfigError? <==> config.None?
    ensures config.Some? && !AnyHit(config.value.categories, issue) ==>
      Classify(issue, config) == Category(config.value.miscName)
    ensures config.Some? && AnyHit(config.value.categories, issue) ==>
      IsBestCategory(config.value.categories, issue, Classify(issue, config).name)
  {
    if config.Some? {
      var cats := config.value.categories;
      EmptyTallyNoHit(cats, issue);
      if Tally(cats, issue) != [] {
        BestOfTally(cats, issue);
      }
    }
  }

  /** One more keyword scanned. */
  lemma HitsStep(kws: seq<string>, k: nat, issue: string)
    requires k < |kws|
    ensures Hits(kws[..k + 1], issue) == Hits(kws[..k], issue) + (if Contains(Lower(issue), Lower(kws[k])) then 1 else 0)
  {
    assert kws[..k + 1][..k] == kws[..k];
  }

  /** One more category scanned. */
  lemma TallyStep(cats: seq<CategoryConfig>, i: nat, issue: string)
    requires i < |cats|
    ensures Tally(cats[..i + 1], issue) == AddHits(Tally(cats[..i], issue), cats[i].name, Hits(cats[i].keywords, issue))
  {
    assert cats[..i + 1][..i] == cats[..i];
  }

  /** The inner loop of `classify_issues` for one category: one `+= 1` per
      keyword found in the lower-cased issue (pipeline.py:230-234). */
  method ScanKeywords(text: string, issue: string, name: string, kws: seq<string>, scores: Dict<string, int>)
    returns (r: Dict<string, int>)
    requires text == Lower(issue)
    ensures r == AddHits(scores, name, Hits(kws, issue))
  {
    r := scores;
    var k := 0;
    while k < |kws|
      invariant 0 <= k <= |kws|
      invariant r == AddHits(scores, name, Hits(kws[..k], issue))
    {
      HitsStep(kws, k, issue);
      if Contains(text, Lower(kws[k])) {
        AddOneHit(scores, name, Hits(kws[..k], issue));
        r := Put(r, name, Get(r, name, 0) + 1);
      }
      k := k + 1;
    }
    assert kws[..k] == kws;
  }

  /** `classify_issues`: the nested loops fill `match_scores` one `+= 1` at a
      time (pipeline.py:228-234). */
  method ClassifyIssues(issue: string, config: Option<Config>) returns (r: Classification)
    ensures r == Classify(issue, config)
  {
    if config.None? {
      return ConfigError;
    }
    var cats := config.value.categories;
    var text := Lower(issue);
    var scores: Dict<string, int> := [];
    var i := 0;
    while i < |cats|
      invariant 0 <= i <= |cats|
      invariant scores == Tally(cats[..i], issue)
    {
      scores := ScanKeywords(text, issue, cats[i].name, cats[i].keywords, scores);
      TallyStep(cats, i, issue);
      i := i + 1;
    }
    assert cats[..i] == cats;
    if scores == [] {
      return Category(config.value.miscName);
    }
    r := Category(scores[FirstMax(scores, EntryCount)].0);
  }

  // ---------------------------------------------------------------------
  // issue_close_mail

  /** The three HTML templates, each addressed to a user name. */
  datatype Template = ResolvedTemplate(user: string) | SuspendTemplate(user: string) | PendingTemplate(user: string)

  datatype Mail = Mail(to: string, subject: string, body: Template)

  /** The subject and template chosen by `issue_close_mail`
      (pipeline.py:423-433); any other task returns without a mail. */
  function CloseMail(task: string, receiver: string, user: string): (m: Option<Mail>)
    ensures m.Some? <==> task in {"RESOLVED", "SUSPENDED", "PENDING"}
    ensures m.Some? ==> m.value.to == receiver
    ensures task == "RESOLVED" ==> m == Some(Mail(receiver, "Your Issue Has Been Resolved", ResolvedTemplate(user)))
    ensures task == "SUSPENDED" ==> m == Some(Mail(receiver, "Your Issue Has Been Suspended", SuspendTemplate(user)))
    ensures task == "PENDING" ==> m == Some(Mail(receiver, "Your Issue Is Pending", PendingTemplate(user)))
  {
    if task == "RESOLVED" then Some(Mail(receiver, "Your Issue Has Been Resolved", ResolvedTemplate(user)))
    else if task == "SUSPENDED" then Some(Mail(receiver, "Your Issue Has Been Suspended", SuspendTemplate(user)))
    else if task == "PENDING" then Some(Mail(receiver, "Your Issue Is Pending", PendingTemplate(user)))
    else None
  }
}
