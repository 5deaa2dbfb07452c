/** The issue list page of frontend/.../admin/AdminAnalytics.js: the local
    status update after a PUT, the action dropdown and the category pie
    chart. The PUT's outcome is a parameter; the client route and its
    lower-case statuses are modelled as written, apart from the server's. */
module IssuesView {
  import opened Options
  import opened OrderedDict
  import AdminIssues
  import Pipeline
  import Records

  /** A row of the list as `get_issues` sends it. */
  datatype IssueRow = IssueRow(id: string, raisedBy: string, text: string, raiseDate: int, status: string)

  /** `prevIssues.map(i => i._id === id ? {...i, status} : i)` */
  function ReplaceStatus(rows: seq<IssueRow>, id: string, status: string): (r: seq<IssueRow>)
    ensures |r| == |rows|
    ensures forall j :: 0 <= j < |rows| && rows[j].id == id ==> r[j] == rows[j].(status := status)
    ensures forall j :: 0 <= j < |rows| && rows[j].id != id ==> r[j] == rows[j]
  {
    seq(|rows|, j requires 0 <= j < |rows| => if rows[j].id == id then rows[j].(status := status) else rows[j])
  }

  /** Only the status of the matching rows changes; every row keeps its id,
      so replacing again with the same status changes nothing. */
  lemma ReplaceStatusFrame(rows: seq<IssueRow>, id: string, status: string)
    ensures var r := ReplaceStatus(rows, id, status);
      && (forall j :: 0 <= j < |rows| ==> r[j].(status := rows[j].status) == rows[j])
      && (forall j :: 0 <= j < |rows| ==> r[j].id == rows[j].id && (r[j].id == id ==> r[j].status == status))
      && ReplaceStatus(r, id, status) == r
  {
  }

  /** `setDropdownOpen(dropdownOpen === i ? null : i)` */
  function Toggle(open: Option<nat>, i: nat): (r: Option<nat>)
    ensures r == None <==> open == Some(i)
    ensures r != None ==> r == Some(i)
  {
    if open == Some(i) then None else Some(i)
  }

  /** Toggling the same row twice restores the state when nothing or that row
      was open. */
  lemma ToggleTwice(open: Option<nat>, i: nat)
    requires open == None || open == Some(i)
    ensures Toggle(Toggle(open, i), i) == open
  {
  }

  /** With another row's menu open, toggling twice closes every menu. */
  lemma ToggleTwiceOther(j: nat, i: nat)
    requires j != i
    ensures Toggle(Toggle(Some(j), i), i) == None
  {
  }

  /** The menu shown for a row offers the same three lower-case targets
      whatever the row's status (AdminAnalytics.js:157-179). */
  function Actions(status: string): (r: seq<string>)
    ensures |r| == 3 && "resolved" in r && "resolving" in r && "suspend" in r
  {
    ["resolved", "resolving", "suspend"]
  }

  /** None of the client's targets is a status the back end stores, counts
      or sends a notification for: the menu and the server disagree. */
  lemma ActionsAreNotServerStatuses(status: string, receiver: string)
    ensures forall a :: a in Actions(status) ==>
      && a !in {AdminIssues.Resolved, AdminIssues.Suspended, AdminIssues.Pending}
      && Pipeline.CloseMail(a, receiver, receiver).None?
  {
  }

  class IssuesPage {
    var rows: seq<IssueRow>
    var dropdownOpen: Option<nat>

    constructor ()
      ensures rows == [] && dropdownOpen == None
    {
      rows, dropdownOpen := [], None;
    }

    /** `handleStatusChange` (AdminAnalytics.js:47-56): after a successful PUT
        the matching rows take the new status and the menu closes; if the PUT
        throws, nothing changes. */
    method HandleStatusChange(row: IssueRow, newStatus: string, putOk: bool)
      modifies this
      ensures putOk ==> rows == ReplaceStatus(old(rows), row.id, newStatus) && dropdownOpen == None
      ensures !putOk ==> rows == old(rows) && dropdownOpen == old(dropdownOpen)
    {
      if putOk {
        rows := ReplaceStatus(rows, row.id, newStatus);
        dropdownOpen := None;
      }
    }

    /** `toggleDropdown` (AdminAnalytics.js:58-60). */
    method ToggleDropdown(i: nat)
      modifies this
      ensures dropdownOpen == Toggle(old(dropdownOpen), i) && rows == old(rows)
    {
      dropdownOpen := Toggle(dropdownOpen, i);
    }
  }

  /** `Object.values(categoryData).reduce((acc, c) => acc + c, 0)`, a left
      fold. */
  function TotalIssues(categoryData: Dict<string, int>): (r: int) {
    FoldSum(0, Values(categoryData))
  }

  function FoldSum(acc: int, xs: seq<int>): int
    decreases |xs|
  {
    if xs == [] then acc else FoldSum(acc + xs[0], xs[1..])
  }

  /** The left fold adds the same as the sum. */
  lemma {:induction false} FoldSumIsSum(acc: int, xs: seq<int>)
    ensures FoldSum(acc, xs) == acc + SumOf(xs)
    decreases |xs|
  {
    if xs != [] {
      FoldSumIsSum(acc + xs[0], xs[1..]);
      SumOfConcat([xs[0]], xs[1..]);
      assert [xs[0]] + xs[1..] == xs;
      assert [xs[0]][..0] == [];
    }
  }

  /** With the category data of the backend, the total is the number of
      issues whenever no two categories share a key text. */
  lemma TotalIsIssueCount(issues: seq<Records.Issue>)
    requires AdminIssues.NoKeyClash(issues)
    ensures TotalIssues(AdminIssues.GetIssueCategories(issues)) == |issues|
  {
    FoldSumIsSum(0, Values(AdminIssues.GetIssueCategories(issues)));
    AdminIssues.CategoryCountsSum(issues);
  }

  /** The pie chart's labels and data, both read from the category object
      (the percentage suffix of each label is not modelled). */
  function PieChart(categoryData: Dict<string, int>): (r: (seq<string>, seq<int>))
    ensures |r.0| == |r.1| == |categoryData|
    ensures forall i :: 0 <= i < |categoryData| ==> categoryData[i] == (r.0[i], r.1[i])
  {
    (Keys(categoryData), Values(categoryData))
  }
}
