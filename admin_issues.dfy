/** The issue routes of backend/app/admin.py: status counts, category
    distribution, the three status setters and the issue filter. The issue
    collection is `db.issues`; a status is the string the document holds. */
module AdminIssues {
  import opened Options
  import opened OrderedDict
  import opened Text
  import opened Records
  import Pipeline

  const Pending: string := "PENDING"
  const Resolved: string := "RESOLVED"
  const Suspended: string := "SUSPENDED"

  /** `count_documents({"status": s})` */
  function CountStatus(issues: seq<Issue>, s: string): (r: nat)
    ensures r <= |issues|
  {
    if issues == [] then 0
    else CountStatus(issues[..|issues| - 1], s) + (if issues[|issues| - 1].status == s then 1 else 0)
  }

  /** Issues whose status is neither RESOLVED nor PENDING. */
  function CountOther(issues: seq<Issue>): (r: nat)
    ensures r <= |issues|
  {
    if issues == [] then 0
    else CountOther(issues[..|issues| - 1]) + (if issues[|issues| - 1].status !in {Resolved, Pending} then 1 else 0)
  }

  /** Every issue is counted exactly once: as resolved, as pending, or as
      some other status. */
  lemma {:induction false} StatusPartition(issues: seq<Issue>)
    ensures CountStatus(issues, Resolved) + CountStatus(issues, Pending) + CountOther(issues) == |issues|
  {
    if issues != [] {
      StatusPartition(issues[..|issues| - 1]);
    }
  }

  lemma {:induction false} NoOtherStatus(issues: seq<Issue>)
    ensures CountOther(issues) == 0 <==> forall i :: 0 <= i < |issues| ==> issues[i].status in {Resolved, Pending}
  {
    if issues != [] {
      var init := issues[..|issues| - 1];
      NoOtherStatus(init);
      assert forall i :: 0 <= i < |init| ==> init[i] == issues[i];
    }
  }

  datatype IssueCounts = IssueCounts(total: nat, resolved: nat, pending: nat)

  /** `GET /admin/get_issue_counts` (admin.py:365-367). Issues in any other
      status (SUSPENDED, RESOLVING, a lower-case one) count only in `total`. */
  function GetIssueCounts(issues: seq<Issue>): (c: IssueCounts)
    ensures c.total == |issues|
    ensures c.resolved + c.pending <= c.total
    ensures c.resolved + c.pending == c.total <==> forall i :: 0 <= i < |issues| ==> issues[i].status in {Resolved, Pending}
  {
    StatusPartition(issues);
    NoOtherStatus(issues);
    IssueCounts(|issues|, CountStatus(issues, Resolved), CountStatus(issues, Pending))
  }

  /** The `$group` stage on `$category`: one entry per distinct category value
      (absent included), with its count. Mongo does not fix the order of the
      groups; this model lists them by first occurrence. */
  function GroupCategories(issues: seq<Issue>): (g: Dict<Option<string>, int>)
    ensures DistinctKeys(g)
  {
    if issues == [] then []
    else
      var g := GroupCategories(issues[..|issues| - 1]);
      var c := issues[|issues| - 1].category;
      PutDistinct(g, c, Get(g, c, 0) + 1);
      Put(g, c, Get(g, c, 0) + 1)
  }

  /** `str(category["_id"])`: an absent category becomes the text "None". */
  function CategoryKey(c: Option<string>): string {
    match c
    case None => "None"
    case Some(s) => s
  }

  /** The dict comprehension of admin.py:393 over the groups: a later group
      whose key text repeats an earlier one overwrites its count. */
  function CategoryData(groups: Dict<Option<string>, int>): (d: Dict<string, int>)
    ensures DistinctKeys(d)
  {
    if groups == [] then []
    else
      var d := CategoryData(groups[..|groups| - 1]);
      var (c, n) := groups[|groups| - 1];
      PutDistinct(d, CategoryKey(c), n);
      Put(d, CategoryKey(c), n)
  }

  /** `GET /admin/get_issue_categories` (admin.py:378-393). */
  function GetIssueCategories(issues: seq<Issue>): Dict<string, int> {
    CategoryData(GroupCategories(issues))
  }

  predicate HasCategory(issues: seq<Issue>, c: Option<string>) {
    exists i :: 0 <= i < |issues| && issues[i].category == c
  }

  /** There is a group exactly for the category values that occur, and each
      group counts at least one issue. */
  lemma GroupKeys(issues: seq<Issue>, c: Option<string>)
    ensures HasKey(GroupCategories(issues), c) <==> HasCategory(issues, c)
    ensures HasKey(GroupCategories(issues), c) ==> Get(GroupCategories(issues), c, 0) >= 1
  {
    GroupHasKey(issues, c);
    GroupCount(issues, c);
  }

  lemma {:induction false} GroupHasKey(issues: seq<Issue>, c: Option<string>)
    ensures HasKey(GroupCategories(issues), c) <==> HasCategory(issues, c)
  {
    if issues != [] {
      var init := issues[..|issues| - 1];
      var last := issues[|issues| - 1].category;
      var g := GroupCategories(init);
      GroupHasKey(init, c);
      HasKeyPut(g, last, Get(g, last, 0) + 1, c);
      HasCategorySnoc(issues, c);
    }
  }

  lemma {:induction false} GroupCount(issues: seq<Issue>, c: Option<string>)
    ensures Get(GroupCategories(issues), c, 0) >= 0
    ensures HasKey(GroupCategories(issues), c) ==> Get(GroupCategories(issues), c, 0) >= 1
  {
    if issues != [] {
      var init := issues[..|issues| - 1];
      var last := issues[|issues| - 1].category;
      var g := GroupCategories(init);
      GroupCount(init, c);
      CountStep(g, last, c);
    }
  }

  /** One more issue of category `last` keeps every count non-negative and
      every present count positive. */
  lemma CountStep(g: Dict<Option<string>, int>, last: Option<string>, c: Option<string>)
    requires DistinctKeys(g)
    requires Get(g, c, 0) >= 0 && (HasKey(g, c) ==> Get(g, c, 0) >= 1)
    ensures var r := Put(g, last, Get(g, last, 0) + 1);
      Get(r, c, 0) >= 0 && (HasKey(r, c) ==> Get(r, c, 0) >= 1)
  {
    var v := Get(g, last, 0) + 1;
    HasKeyPut(g, last, v, c);
    GetPut(g, last, v, c, 0);
  }

  /** The categories of a list are those of its prefix and that of its last
      issue. */
  lemma HasCategorySnoc(issues: seq<Issue>, c: Option<string>)
    requires issues != []
    ensures HasCategory(issues, c) <==> HasCategory(issues[..|issues| - 1], c) || issues[|issues| - 1].category == c
  {
    var init := issues[..|issues| - 1];
    if HasCategory(issues, c) && issues[|issues| - 1].category != c {
      var i :| 0 <= i < |issues| && issues[i].category == c;
      assert init[i].category == c;
    }
    if HasCategory(init, c) {
      var i :| 0 <= i < |init| && init[i].category == c;
      assert issues[i].category == c;
    }
  }

  /** The group counts add up to the number of issues. */
  lemma {:induction false} GroupSum(issues: seq<Issue>)
    ensures SumOf(Values(GroupCategories(issues))) == |issues|
  {
    if issues != [] {
      var init := issues[..|issues| - 1];
      var g := GroupCategories(init);
      var last := issues[|issues| - 1].category;
      var v := Get(g, last, 0) + 1;
      assert GroupCategories(issues) == Put(g, last, v);
      GroupSum(init);
      SumAfterPut(g, last, v);
    }
  }

  lemma GroupsPositive(issues: seq<Issue>)
    ensures forall i :: 0 <= i < |GroupCategories(issues)| ==> GroupCategories(issues)[i].1 >= 1
  {
    var g := GroupCategories(issues);
    forall i | 0 <= i < |g| ensures g[i].1 >= 1 {
      GroupKeys(issues, g[i].0);
      assert IndexOf(g, g[i].0) == Some(i);
    }
  }

  /** Some group's key text is `s`. */
  predicate HasKeyText(groups: Dict<Option<string>, int>, s: string) {
    exists i :: 0 <= i < |groups| && CategoryKey(groups[i].0) == s
  }

  /** The count `x` is that of some group. */
  predicate IsGroupCount(groups: Dict<Option<string>, int>, x: int) {
    exists i :: 0 <= i < |groups| && groups[i].1 == x
  }

  /** The keys of the category data are the key texts of the groups, and
      every count comes from some group. */
  lemma CategoryDataKeys(groups: Dict<Option<string>, int>, s: string)
    ensures HasKey(CategoryData(groups), s) <==> HasKeyText(groups, s)
    ensures HasKey(CategoryData(groups), s) ==> IsGroupCount(groups, Get(CategoryData(groups), s, 0))
  {
    CategoryDataHasKey(groups, s);
    CategoryDataCount(groups, s);
  }

  lemma {:induction false} CategoryDataHasKey(groups: Dict<Option<string>, int>, s: string)
    ensures HasKey(CategoryData(groups), s) <==> HasKeyText(groups, s)
  {
    if groups != [] {
      var init := groups[..|groups| - 1];
      var (c, n) := groups[|groups| - 1];
      CategoryDataHasKey(init, s);
      HasKeyPut(CategoryData(init), CategoryKey(c), n, s);
      KeyTextSnoc(groups, s);
    }
  }

  lemma KeyTextSnoc(groups: Dict<Option<string>, int>, s: string)
    requires groups != []
    ensures HasKeyText(groups, s) <==> HasKeyText(groups[..|groups| - 1], s) || CategoryKey(groups[|groups| - 1].0) == s
  {
    var init := groups[..|groups| - 1];
    if HasKeyText(groups, s) && CategoryKey(groups[|groups| - 1].0) != s {
      var i :| 0 <= i < |groups| && CategoryKey(groups[i].0) == s;
      assert init[i] == groups[i];
    }
    if HasKeyText(init, s) {
      var i :| 0 <= i < |init| && CategoryKey(init[i].0) == s;
      assert groups[i] == init[i];
    }
  }

  lemma {:induction false} CategoryDataCount(groups: Dict<Option<string>, int>, s: string)
    ensures HasKey(CategoryData(groups), s) ==> IsGroupCount(groups, Get(CategoryData(groups), s, 0))
  {
    if groups != [] {
      var k := |groups| - 1;
      var init := groups[..k];
      var (c, n) := groups[k];
      var d := CategoryData(init);
      CategoryDataCount(init, s);
      HasKeyPut(d, CategoryKey(c), n, s);
      GetPut(d, CategoryKey(c), n, s, 0);
      if s == CategoryKey(c) {
        assert groups[k].1 == n;
      } else if HasKey(d, s) {
        var i :| 0 <= i < |init| && init[i].1 == Get(d, s, 0);
        assert groups[i] == init[i];
      }
    }
  }

  /** Every reported category count is at least 1 (admin.py:385-389). */
  lemma CategoryCountsPositive(issues: seq<Issue>, s: string)
    requires HasKey(GetIssueCategories(issues), s)
    ensures Get(GetIssueCategories(issues), s, 0) >= 1
  {
    GroupsPositive(issues);
    CategoryDataKeys(GroupCategories(issues), s);
  }

  /** The issues without a category are reported under the key "None", and
      every other category under its own name. */
  lemma CategoryKeysCoverIssues(issues: seq<Issue>, i: nat)
    requires i < |issues|
    ensures HasKey(GetIssueCategories(issues), CategoryKey(issues[i].category))
    ensures issues[i].category.None? ==> HasKey(GetIssueCategories(issues), "None")
  {
    var c := issues[i].category;
    GroupKeys(issues, c);
    var g := GroupCategories(issues);
    var j :| 0 <= j < |g| && g[j].0 == c;
    CategoryDataKeys(g, CategoryKey(c));
  }

  /** No two issue categories share a key text: not both an absent category
      and the literal category "None". */
  predicate NoKeyClash(issues: seq<Issue>) {
    !(HasCategory(issues, None) && HasCategory(issues, Some("None")))
  }

  /** No two groups share a key text. */
  predicate KeyTextsUnique(groups: Dict<Option<string>, int>) {
    forall i, j :: 0 <= i < |groups| && 0 <= j < |groups| && CategoryKey(groups[i].0) == CategoryKey(groups[j].0) ==> i == j
  }

  /** With unique key texts every group keeps its count in the category data,
      so the counts add up to the same total. */
  lemma {:induction false} CategoryDataSum(groups: Dict<Option<string>, int>)
    requires KeyTextsUnique(groups)
    ensures SumOf(Values(CategoryData(groups))) == SumOf(Values(groups))
  {
    if groups != [] {
      var k := |groups| - 1;
      var init := groups[..k];
      var d := CategoryData(init);
      var (c, n) := groups[k];
      UniqueTextsSnoc(groups);
      CategoryDataSum(init);
      CategoryDataHasKey(init, CategoryKey(c));
      SumAfterPut(d, CategoryKey(c), n);
      SumValuesSnoc(groups);
    }
  }

  /** Unique key texts stay unique in the prefix, and the prefix has no group
      with the last group's key text. */
  lemma UniqueTextsSnoc(groups: Dict<Option<string>, int>)
    requires groups != [] && KeyTextsUnique(groups)
    ensures KeyTextsUnique(groups[..|groups| - 1])
    ensures !HasKeyText(groups[..|groups| - 1], CategoryKey(groups[|groups| - 1].0))
  {
    var k := |groups| - 1;
    var init := groups[..k];
    forall i, j | 0 <= i < |init| && 0 <= j < |init| && CategoryKey(init[i].0) == CategoryKey(init[j].0) ensures i == j {
      assert init[i] == groups[i] && init[j] == groups[j];
    }
    forall i | 0 <= i < |init| ensures CategoryKey(init[i].0) != CategoryKey(groups[k].0) {
      assert init[i] == groups[i];
    }
  }

  /** Without a key clash, distinct categories have distinct key texts. */
  lemma KeysDistinguish(issues: seq<Issue>, c1: Option<string>, c2: Option<string>)
    requires NoKeyClash(issues)
    requires HasCategory(issues, c1) && HasCategory(issues, c2)
    requires CategoryKey(c1) == CategoryKey(c2)
    ensures c1 == c2
  {
  }

  /** Without a key clash the reported counts add up to the number of issues
      (the `total` of `get_issue_counts`). */
  lemma CategoryCountsSum(issues: seq<Issue>)
    requires NoKeyClash(issues)
    ensures SumOf(Values(GetIssueCategories(issues))) == GetIssueCounts(issues).total
  {
    var g := GroupCategories(issues);
    forall i, j | 0 <= i < |g| && 0 <= j < |g| && CategoryKey(g[i].0) == CategoryKey(g[j].0) ensures i == j {
      GroupKeys(issues, g[i].0);
      GroupKeys(issues, g[j].0);
      KeysDistinguish(issues, g[i].0, g[j].0);
    }
    CategoryDataSum(g);
    GroupSum(issues);
  }

  /** The groups of an uncategorised issue followed by one categorised "None". */
  lemma ClashGroups(a: Issue, b: Issue)
    requires a.category == None && b.category == Some("None")
    ensures GroupCategories([a, b]) == [(None, 1), (Some("None"), 1)]
  {
    assert [a, b][..1] == [a];
    SingleGroup(a);
  }

  lemma SingleGroup(a: Issue)
    ensures GroupCategories([a]) == [(a.category, 1)]
  {
    assert [a][..0] == [];
  }

  /** With a clash the counts do not add up: an uncategorised issue and one
      categorised "None" are reported as a single "None" entry of count 1. */
  lemma CategoryKeyClashExample(a: Issue, b: Issue)
    requires a.category == None && b.category == Some("None")
    ensures GetIssueCategories([a, b]) == [("None", 1)]
    ensures SumOf(Values(GetIssueCategories([a, b]))) == 1 < GetIssueCounts([a, b]).total
  {
    ClashGroups(a, b);
    ClashData();
    SingleSum();
  }

  lemma ClashData()
    ensures CategoryData([(None, 1), (Some("None"), 1)]) == [("None", 1)]
  {
    var g: Dict<Option<string>, int> := [(None, 1), (Some("None"), 1)];
    assert g[..1] == [(None, 1)];
    assert g[..1][..0] == [];
    assert CategoryData(g[..1]) == [("None", 1)];
  }

  lemma SingleSum()
    ensures SumOf(Values([("None", 1)])) == 1
  {
    assert Values([("None", 1)]) == [1];
    assert [1][..0] == [];
  }

  /** The position of the first issue whose `_id` is `id` (`find_one` and
      `update_one` both act on it). */
  function FindIssue(issues: seq<Issue>, id: string): (r: Option<nat>)
    ensures r.Some? ==> r.value < |issues| && issues[r.value].id == id
    ensures r.Some? ==> forall j :: 0 <= j < r.value ==> issues[j].id != id
    ensures r.None? ==> forall j :: 0 <= j < |issues| ==> issues[j].id != id
  {
    if issues == [] then None
    else if issues[0].id == id then Some(0)
    else match FindIssue(issues[1..], id)
      case None => None
      case Some(i) => Some(i + 1)
  }

  datatype StatusReply =
    | Updated(status: string)   // 200 "Issue status updated to …"
    | NotFound                  // 404 "Issue not found."
    | NotChanged                // 404 "Issue not found or status not changed."
    | ServerError               // 500: `ObjectId` rejected the id, or the mail could not be sent

  function Code(r: StatusReply): int {
    match r
    case Updated(_) => 200
    case NotFound => 404
    case NotChanged => 404
    case ServerError => 500
  }

  datatype StatusChange = StatusChange(reply: StatusReply, issues: seq<Issue>, mail: Option<Pipeline.Mail>)

  /** One status setter (admin.py:396-462, all three alike): parse the id,
      find the issue, set its status unless it already has that status, then
      ask for the notification mail. `ObjectId` parses hex digits in either
      case and `str(ObjectId)` is lower-case, so the stored ids are compared
      with the lower-cased parameter. */
  function ChangeStatus(issues: seq<Issue>, id: string, target: string): (r: StatusChange)
    ensures r.reply.ServerError? <==> !IsObjectId(id)
    ensures r.reply.NotFound? <==> IsObjectId(id) && FindIssue(issues, Lower(id)).None?
    ensures r.reply.NotChanged? <==> (IsObjectId(id) && FindIssue(issues, Lower(id)).Some?
      && issues[FindIssue(issues, Lower(id)).value].status == target)
    ensures !r.reply.Updated? ==> r.issues == issues && r.mail.None?
    ensures r.reply.Updated? ==>
      var i := FindIssue(issues, Lower(id)).value;
      && r.reply.status == target
      && r.issues == issues[i := issues[i].(status := target)]
      && issues[i].status != target
      && r.mail == Pipeline.CloseMail(target, issues[i].raisedBy, issues[i].raisedBy)
  {
    if !IsObjectId(id) then StatusChange(ServerError, issues, None)
    else match FindIssue(issues, Lower(id))
      case None => StatusChange(NotFound, issues, None)
      case Some(i) =>
        if issues[i].status == target then StatusChange(NotChanged, issues, None)
        else
          StatusChange(Updated(target), issues[i := issues[i].(status := target)],
            Pipeline.CloseMail(target, issues[i].raisedBy, issues[i].raisedBy))
  }

  /** A successful change alters only the status of the one issue: the other
      issues, the other fields, the order and the length stay as they were. */
  lemma ChangeStatusFrame(issues: seq<Issue>, id: string, target: string)
    requires ChangeStatus(issues, id, target).reply.Updated?
    ensures var r := ChangeStatus(issues, id, target).issues;
      && |r| == |issues|
      && (forall j :: 0 <= j < |issues| ==> r[j].(status := issues[j].status) == issues[j])
      && (forall j :: 0 <= j < |issues| && r[j].status != issues[j].status ==> r[j].id == Lower(id) && r[j].status == target)
  {
  }

  /** There is no terminal status: an existing issue can always be moved to a
      status it does not have, RESOLVED issues included, and the mail for the
      new status is sent. */
  lemma NoTerminalStatus(issues: seq<Issue>, i: nat, target: string)
    requires i < |issues| && IsObjectId(issues[i].id) && Lower(issues[i].id) == issues[i].id
    requires issues[i].status != target
    requires forall j :: 0 <= j < i ==> issues[j].id != issues[i].id
    requires target in {Resolved, Suspended, Pending}
    ensures ChangeStatus(issues, issues[i].id, target).reply == Updated(target)
    ensures ChangeStatus(issues, issues[i].id, target).mail.Some?
  {
    assert FindIssue(issues, issues[i].id) == Some(i);
  }

  lemma {:induction false} CountStatusUpdate(issues: seq<Issue>, i: nat, t: string, s: string)
    requires i < |issues|
    ensures CountStatus(issues[i := issues[i].(status := t)], s)
      == CountStatus(issues, s) - (if issues[i].status == s then 1 else 0) + (if t == s then 1 else 0)
  {
    var n := |issues| - 1;
    var u := issues[i := issues[i].(status := t)];
    assert u[..n] == if i < n then issues[..n][i := issues[i].(status := t)] else issues[..n];
    if i < n {
      CountStatusUpdate(issues[..n], i, t, s);
    }
  }

  /** Counts follow a successful change at once: the old status loses one
      issue, the target gains one, and the total stays. */
  lemma CountsAfterChange(issues: seq<Issue>, id: string, target: string)
    requires ChangeStatus(issues, id, target).reply.Updated?
    ensures var before := issues[FindIssue(issues, Lower(id)).value].status;
      var after := ChangeStatus(issues, id, target).issues;
      && GetIssueCounts(after).total == GetIssueCounts(issues).total
      && CountStatus(after, target) == CountStatus(issues, target) + 1
      && CountStatus(after, before) == CountStatus(issues, before) - 1
  {
    var i := FindIssue(issues, Lower(id)).value;
    CountStatusUpdate(issues, i, target, target);
    CountStatusUpdate(issues, i, target, issues[i].status);
  }

  /** The notification is sent after `update_one` (admin.py:412-413): when
      sending raises, the route answers 500 but the new status is already
      stored. */
  function AfterMail(c: StatusChange, mailOk: bool): (r: StatusChange)
    ensures r.issues == c.issues
    ensures c.mail.Some? && !mailOk ==> r.reply == ServerError && r.mail.None?
    ensures c.mail.None? || mailOk ==> r == c
  {
    if c.mail.Some? && !mailOk then StatusChange(ServerError, c.issues, None) else c
  }

  /** A failed notification does not undo the change: the reply is a 500,
      yet the issue has its new status and the counts have moved. */
  lemma FailedMailKeepsChange(issues: seq<Issue>, id: string, target: string)
    requires ChangeStatus(issues, id, target).reply.Updated?
    requires target in {Resolved, Suspended, Pending}
    ensures var a := AfterMail(ChangeStatus(issues, id, target), false);
      && a.reply == ServerError
      && CountStatus(a.issues, target) == CountStatus(issues, target) + 1
  {
    CountsAfterChange(issues, id, target);
  }

  /** One status route; `mailOk` says whether sending the mail succeeded. */
  method SetStatus(db: Database, id: string, target: string, mailOk: bool)
    returns (reply: StatusReply, mail: Option<Pipeline.Mail>)
    modifies db
    ensures StatusChange(reply, db.issues, mail) == AfterMail(ChangeStatus(old(db.issues), id, target), mailOk)
    ensures db.users == old(db.users) && db.userLogs == old(db.userLogs)
    ensures db.feedback == old(db.feedback) && db.questions == old(db.questions)
  {
    var r := ChangeStatus(db.issues, id, target);
    db.issues := r.issues;
    reply, mail := r.reply, r.mail;
    if r.mail.Some? && !mailOk {
      reply, mail := ServerError, None;
    }
  }

  /** `PUT /admin/resolve_issue/<id>` */
  method ResolveIssue(db: Database, id: string, mailOk: bool) returns (reply: StatusReply, mail: Option<Pipeline.Mail>)
    modifies db
    ensures StatusChange(reply, db.issues, mail) == AfterMail(ChangeStatus(old(db.issues), id, Resolved), mailOk)
    ensures db.users == old(db.users) && db.userLogs == old(db.userLogs)
    ensures db.feedback == old(db.feedback) && db.questions == old(db.questions)
  {
    reply, mail := SetStatus(db, id, Resolved, mailOk);
  }

  /** `PUT /admin/suspend_issue/<id>` */
  method SuspendIssue(db: Database, id: string, mailOk: bool) returns (reply: StatusReply, mail: Option<Pipeline.Mail>)
    modifies db
    ensures StatusChange(reply, db.issues, mail) == AfterMail(ChangeStatus(old(db.issues), id, Suspended), mailOk)
    ensures db.users == old(db.users) && db.userLogs == old(db.userLogs)
    ensures db.feedback == old(db.feedback) && db.questions == old(db.questions)
  {
    reply, mail := SetStatus(db, id, Suspended, mailOk);
  }

  /** `PUT /admin/set_pending_issue/<id>` */
  method SetPendingIssue(db: Database, id: string, mailOk: bool) returns (reply: StatusReply, mail: Option<Pipeline.Mail>)
    modifies db
    ensures StatusChange(reply, db.issues, mail) == AfterMail(ChangeStatus(old(db.issues), id, Pending), mailOk)
    ensures db.users == old(db.users) && db.userLogs == old(db.userLogs)
    ensures db.feedback == old(db.feedback) && db.questions == old(db.questions)
  {
    reply, mail := SetStatus(db, id, Pending, mailOk);
  }

  /** The query-string filters of `filter_issues`; `None` or "" means the
      filter is not applied. */
  datatype IssueFilter = IssueFilter(status: Option<string>, category: Option<string>, query: Option<string>)

  predicate Given(p: Option<string>) {
    p.Some? && p.value != ""
  }

  /** The Mongo filter document built at admin.py:471-481, applied to one issue. */
  predicate Matches(f: IssueFilter, x: Issue) {
    && (Given(f.status) ==> x.status == f.status.value)
    && (Given(f.category) ==> x.category == Some(f.category.value))
    && (Given(f.query) ==>
          ContainsIgnoreCase(x.raisedBy, f.query.value)
          || (x.rollNo.Some? && ContainsIgnoreCase(x.rollNo.value, f.query.value)))
  }

  /** The issues that match, in store order. */
  function Filtered(issues: seq<Issue>, f: IssueFilter): (r: seq<Issue>)
    ensures |r| <= |issues|
  {
    if issues == [] then []
    else Filtered(issues[..|issues| - 1], f) + (if Matches(f, issues[|issues| - 1]) then [issues[|issues| - 1]] else [])
  }

  /** An issue is listed exactly when it is stored and matches every given
      filter. */
  lemma {:induction false} FilteredMembers(issues: seq<Issue>, f: IssueFilter, x: Issue)
    ensures x in Filtered(issues, f) <==> x in issues && Matches(f, x)
  {
    if issues != [] {
      var init := issues[..|issues| - 1];
      FilteredMembers(init, f, x);
      assert issues == init + [issues[|issues| - 1]];
    }
  }

  /** Without filters every issue is listed, in store order. */
  lemma {:induction false} NoFilterListsAll(issues: seq<Issue>, f: IssueFilter)
    requires !Given(f.status) && !Given(f.category) && !Given(f.query)
    ensures Filtered(issues, f) == issues
  {
    if issues != [] {
      NoFilterListsAll(issues[..|issues| - 1], f);
      assert issues == issues[..|issues| - 1] + [issues[|issues| - 1]];
    }
  }

  /** `GET /admin/filter_issues`: the cursor loop that appends each found
      issue (admin.py:483-494). */
  method FilterIssues(db: Database, f: IssueFilter) returns (list: seq<Issue>)
    ensures list == Filtered(db.issues, f)
  {
    list := [];
    var i := 0;
    while i < |db.issues|
      invariant 0 <= i <= |db.issues|
      invariant list == Filtered(db.issues[..i], f)
    {
      assert db.issues[..i + 1][..i] == db.issues[..i];
      if Matches(f, db.issues[i]) {
        list := list + [db.issues[i]];
      }
      i := i + 1;
    }
    assert db.issues[..i] == db.issues;
  }
}
