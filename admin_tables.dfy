/** The question and admin-account routes of backend/app/admin.py, and the
    filter document `search_feedback` builds. Request fields that the JSON
    body may omit are `Option`s; Python's truthiness test (`not x`) rejects
    both a missing value and an empty one. */
module AdminTables {
  import opened Options
  import opened Text
  import opened Records

  datatype Reply = Reply(code: int, message: string)

  /** `not x` is false: the value is present and non-empty. */
  predicate Truthy<T>(x: Option<seq<T>>) {
    x.Some? && |x.value| > 0
  }

  // ---------------------------------------------------------------------
  // Feedback questions

  /** The body of `POST /admin/add_feedback_questions`. */
  datatype QuestionRequest = QuestionRequest(question: Option<string>, options: Option<seq<string>>, includeOther: bool)

  /** The check at admin.py:177: a question and at least two options. */
  predicate AcceptsQuestion(req: QuestionRequest) {
    Truthy(req.question) && req.options.Some? && |req.options.value| >= 2
  }

  /** The options that are stored: the given ones, then "Other" when asked. */
  function StoredOptions(options: seq<string>, includeOther: bool): (r: seq<string>)
    ensures includeOther ==> |r| == |options| + 1 && r[..|options|] == options && r[|options|] == "Other"
    ensures !includeOther ==> r == options
  {
    if includeOther then options + ["Other"] else options
  }

  /** `add_feedback_questions` (admin.py:170-189). `newId` is the id
      `insert_one` assigns; the `include_other` flag is not stored. */
  method AddFeedbackQuestion(db: Database, req: QuestionRequest, newId: string) returns (reply: Reply)
    modifies db
    ensures !AcceptsQuestion(req) ==> reply.code == 400 && db.questions == old(db.questions)
    ensures AcceptsQuestion(req) ==>
      && reply.code == 201
      && db.questions == old(db.questions)
           + [Question(newId, req.question.value, StoredOptions(req.options.value, req.includeOther))]
    ensures db.users == old(db.users) && db.userLogs == old(db.userLogs)
    ensures db.feedback == old(db.feedback) && db.issues == old(db.issues)
  {
    if !Truthy(req.question) || req.options.None? || |req.options.value| == 0 || |req.options.value| < 2 {
      return Reply(400, "Question and at least 2 options are required.");
    }
    var options := req.options.value;
    if req.includeOther {
      options := options + ["Other"];
    }
    db.questions := db.questions + [Question(newId, req.question.value, options)];
    reply := Reply(201, "Feedback question added successfully.");
  }

  /** Every stored question offers at least two options: the given ones in
      their order, followed by "Other" when it was asked for. */
  lemma StoredOptionsShape(req: QuestionRequest)
    requires AcceptsQuestion(req)
    ensures |StoredOptions(req.options.value, req.includeOther)| >= 2
    ensures req.includeOther ==> StoredOptions(req.options.value, req.includeOther)[|req.options.value|] == "Other"
    ensures StoredOptions(req.options.value, req.includeOther)[..|req.options.value|] == req.options.value
  {
  }

  /** The position of the first element whose id is `id`. */
  function FindQuestion(qs: seq<Question>, id: string): (r: Option<nat>)
    ensures r.Some? ==> r.value < |qs| && qs[r.value].id == id
    ensures r.Some? ==> forall j :: 0 <= j < r.value ==> qs[j].id != id
    ensures r.None? <==> forall j :: 0 <= j < |qs| ==> qs[j].id != id
  {
    if qs == [] then None
    else if qs[0].id == id then Some(0)
    else match FindQuestion(qs[1..], id)
      case None => None
      case Some(i) => Some(i + 1)
  }

  lemma FindQuestionAt(qs: seq<Question>, id: string, i: nat)
    requires i < |qs| && qs[i].id == id
    requires forall j :: 0 <= j < i ==> qs[j].id != id
    ensures FindQuestion(qs, id) == Some(i)
  {
  }

  /** `delete_one({"_id": id})`: the first question with that id goes. */
  function DeleteFirstQuestion(qs: seq<Question>, id: string): (r: seq<Question>)
    ensures FindQuestion(qs, id).None? ==> r == qs
    ensures FindQuestion(qs, id).Some? ==>
      var i := FindQuestion(qs, id).value;
      |r| == |qs| - 1 && r == qs[..i] + qs[i + 1..]
  {
    match FindQuestion(qs, id)
    case None => qs
    case Some(i) => qs[..i] + qs[i + 1..]
  }

  /** `delete_feedback_question` (admin.py:191-203): an id that is not an
      ObjectId is rejected with 400, an unknown one with 404. */
  method DeleteFeedbackQuestion(db: Database, id: string) returns (reply: Reply)
    modifies db
    ensures !IsObjectId(id) ==> reply.code == 400 && db.questions == old(db.questions)
    ensures IsObjectId(id) && FindQuestion(old(db.questions), Lower(id)).None? ==>
      reply.code == 404 && db.questions == old(db.questions)
    ensures IsObjectId(id) && FindQuestion(old(db.questions), Lower(id)).Some? ==>
      reply.code == 200 && db.questions == DeleteFirstQuestion(old(db.questions), Lower(id))
    ensures db.users == old(db.users) && db.userLogs == old(db.userLogs)
    ensures db.feedback == old(db.feedback) && db.issues == old(db.issues)
  {
    if !IsObjectId(id) {
      return Reply(400, "Invalid question ID format.");
    }
    var key := Lower(id);
    match FindQuestion(db.questions, key)
    case None =>
      reply := Reply(404, "Question not found.");
    case Some(i) =>
      db.questions := db.questions[..i] + db.questions[i + 1..];
      reply := Reply(200, "Feedback question deleted successfully.");
  }

  /** Deleting a question that was just added under a fresh id gives the
      question list back. */
  lemma DeleteUndoesAdd(qs: seq<Question>, q: Question)
    requires forall j :: 0 <= j < |qs| ==> qs[j].id != q.id
    ensures DeleteFirstQuestion(qs + [q], q.id) == qs
  {
    var r := qs + [q];
    FindQuestionAt(r, q.id, |qs|);
    assert r[..|qs|] == qs;
  }

  // ---------------------------------------------------------------------
  // Admin accounts

  predicate IsAdminNamed(u: User, name: string) {
    u.Admin? && u.username == name
  }

  predicate HasAdmin(users: seq<User>, name: string) {
    exists j :: 0 <= j < |users| && IsAdminNamed(users[j], name)
  }

  /** The first admin document with that username (`find_one`,
      `update_one` and `delete_one` all act on it). */
  function FindAdmin(users: seq<User>, name: string): (r: Option<nat>)
    ensures r.Some? ==> r.value < |users| && IsAdminNamed(users[r.value], name)
    ensures r.Some? ==> forall j :: 0 <= j < r.value ==> !IsAdminNamed(users[j], name)
    ensures r.None? <==> !HasAdmin(users, name)
  {
    if users == [] then None
    else if IsAdminNamed(users[0], name) then Some(0)
    else match FindAdmin(users[1..], name)
      case None =>
        assert forall j :: 1 <= j < |users| ==> users[j] == users[1..][j - 1];
        None
      case Some(i) => Some(i + 1)
  }

  lemma FindAdminAt(users: seq<User>, name: string, i: nat)
    requires i < |users| && IsAdminNamed(users[i], name)
    requires forall j :: 0 <= j < i ==> !IsAdminNamed(users[j], name)
    ensures FindAdmin(users, name) == Some(i)
  {
  }

  /** No two admin documents share a username. */
  predicate AdminNamesUnique(users: seq<User>) {
    forall i, j :: 0 <= i < j < |users| && users[i].Admin? && users[j].Admin? ==> users[i].username != users[j].username
  }

  /** `add_admin` (admin.py:227-249): both fields required (400), an existing
      admin username refused (400), else a new admin without a last login. */
  method AddAdmin(db: Database, username: Option<string>, password: Option<string>) returns (reply: Reply)
    modifies db
    ensures !Truthy(username) || !Truthy(password) ==> reply.code == 400 && db.users == old(db.users)
    ensures Truthy(username) && Truthy(password) && HasAdmin(old(db.users), username.value) ==>
      reply.code == 400 && db.users == old(db.users)
    ensures Truthy(username) && Truthy(password) && !HasAdmin(old(db.users), username.value) ==>
      reply.code == 201 && db.users == old(db.users) + [Admin(username.value, password.value, None)]
    ensures db.questions == old(db.questions) && db.userLogs == old(db.userLogs)
    ensures db.feedback == old(db.feedback) && db.issues == old(db.issues)
  {
    if !Truthy(username) || !Truthy(password) {
      return Reply(400, "Username and password are required.");
    }
    if FindAdmin(db.users, username.value).Some? {
      return Reply(400, "Admin already exists.");
    }
    db.users := db.users + [Admin(username.value, password.value, None)];
    reply := Reply(201, "Admin added successfully.");
  }

  /** Adding an admin keeps admin usernames unique. */
  lemma AddKeepsNamesUnique(users: seq<User>, name: string, password: string)
    requires AdminNamesUnique(users)
    requires !HasAdmin(users, name)
    ensures AdminNamesUnique(users + [Admin(name, password, None)])
  {
    var r := users + [Admin(name, password, None)];
    forall i, j | 0 <= i < j < |r| && r[i].Admin? && r[j].Admin? ensures r[i].username != r[j].username {
      if j == |users| {
        assert !IsAdminNamed(users[i], name);
      }
    }
  }

  /** `delete_one({"username": u, "role": "admin"})` */
  function DeleteFirstAdmin(users: seq<User>, name: string): (r: seq<User>)
    ensures FindAdmin(users, name).None? ==> r == users
    ensures FindAdmin(users, name).Some? ==>
      var i := FindAdmin(users, name).value;
      |r| == |users| - 1 && r == users[..i] + users[i + 1..]
  {
    match FindAdmin(users, name)
    case None => users
    case Some(i) => users[..i] + users[i + 1..]
  }

  /** `delete_admin` (admin.py:259-266): 404 when no admin has the name. */
  method DeleteAdmin(db: Database, username: string) returns (reply: Reply)
    modifies db
    ensures !HasAdmin(old(db.users), username) ==> reply.code == 404 && db.users == old(db.users)
    ensures HasAdmin(old(db.users), username) ==>
      reply.code == 200 && db.users == DeleteFirstAdmin(old(db.users), username)
    ensures db.questions == old(db.questions) && db.userLogs == old(db.userLogs)
    ensures db.feedback == old(db.feedback) && db.issues == old(db.issues)
  {
    match FindAdmin(db.users, username)
    case None =>
      reply := Reply(404, "Admin not found.");
    case Some(i) =>
      db.users := db.users[..i] + db.users[i + 1..];
      reply := Reply(200, "Admin deleted successfully.");
  }

  /** Deleting an admin that was just added gives the user list back, and with
      unique names no admin of that name is left. */
  lemma DeleteUndoesAddAdmin(users: seq<User>, name: string, password: string)
    requires !HasAdmin(users, name)
    ensures DeleteFirstAdmin(users + [Admin(name, password, None)], name) == users
    ensures !HasAdmin(DeleteFirstAdmin(users + [Admin(name, password, None)], name), name)
  {
    var r := users + [Admin(name, password, None)];
    FindAdminAt(r, name, |users|);
    assert r[..|users|] == users;
  }

  /** The update of `change_password`: outcome and new user list. */
  function ChangePasswordIn(users: seq<User>, name: string, password: string): (r: (int, seq<User>))
    ensures !HasAdmin(users, name) ==> r == (404, users)
    ensures HasAdmin(users, name) && users[FindAdmin(users, name).value].password == password ==> r == (404, users)
    ensures HasAdmin(users, name) && users[FindAdmin(users, name).value].password != password ==>
      var i := FindAdmin(users, name).value;
      r == (200, users[i := users[i].(password := password)])
  {
    match FindAdmin(users, name)
    case None => (404, users)
    case Some(i) =>
      if users[i].password == password then (404, users)
      else (200, users[i := users[i].(password := password)])
  }

  /** `change_password` (admin.py:206-224): 400 without both fields; 404 when
      nothing was modified, which includes setting the password it already has. */
  method ChangePassword(db: Database, username: Option<string>, newPassword: Option<string>) returns (reply: Reply)
    modifies db
    ensures !Truthy(username) || !Truthy(newPassword) ==> reply.code == 400 && db.users == old(db.users)
    ensures Truthy(username) && Truthy(newPassword) ==>
      (reply.code, db.users) == ChangePasswordIn(old(db.users), username.value, newPassword.value)
    ensures db.questions == old(db.questions) && db.userLogs == old(db.userLogs)
    ensures db.feedback == old(db.feedback) && db.issues == old(db.issues)
  {
    if !Truthy(username) || !Truthy(newPassword) {
      return Reply(400, "Username and new password are required.");
    }
    var r := ChangePasswordIn(db.users, username.value, newPassword.value);
    db.users := r.1;
    if r.0 == 404 {
      reply := Reply(404, "Admin not found or password not changed.");
    } else {
      reply := Reply(200, "Password changed successfully.");
    }
  }

  /** A successful change leaves that admin with the new password, and
      repeating the same change is reported as 404. */
  lemma ChangePasswordTwice(users: seq<User>, name: string, password: string)
    requires ChangePasswordIn(users, name, password).0 == 200
    ensures var after := ChangePasswordIn(users, name, password).1;
      && FindAdmin(after, name) == FindAdmin(users, name)
      && after[FindAdmin(after, name).value].password == password
      && ChangePasswordIn(after, name, password) == (404, after)
  {
    var i := FindAdmin(users, name).value;
    var after := users[i := users[i].(password := password)];
    assert IsAdminNamed(after[i], name);
    assert forall j :: 0 <= j < i ==> after[j] == users[j];
    FindAdminAt(after, name, i);
  }

  /** Changing a password keeps admin usernames unique. */
  lemma ChangeKeepsNamesUnique(users: seq<User>, name: string, password: string)
    requires AdminNamesUnique(users)
    ensures AdminNamesUnique(ChangePasswordIn(users, name, password).1)
  {
  }

  // ---------------------------------------------------------------------
  // search_feedback

  datatype MatchField = RollNo | AnswerText

  datatype DateBound = AtLeast(date: string) | AtMost(date: string)

  /** The filter document: a case-insensitive pattern on one field and at
      most one bound on `date`. */
  datatype SearchFilter = SearchFilter(field: MatchField, pattern: string, date: Option<DateBound>)

  datatype FilterResult = BadFilter | Filter(filter: SearchFilter)

  /** The filter construction of `search_feedback` (admin.py:300-320).
      `filterType` defaults to "roll_no" and `query` to "". */
  function SearchFeedbackFilter(query: string, filterType: string, startDate: Option<string>, endDate: Option<string>): (r: FilterResult)
    ensures r.BadFilter? <==> filterType !in {"roll_no", "keyword"}
    ensures r.Filter? ==> r.filter.pattern == query
    ensures r.Filter? ==> (r.filter.field == RollNo <==> filterType == "roll_no")
    ensures r.Filter? && Truthy(endDate) ==> r.filter.date == Some(AtMost(endDate.value))
    ensures r.Filter? && !Truthy(endDate) && Truthy(startDate) ==> r.filter.date == Some(AtLeast(startDate.value))
    ensures r.Filter? && !Truthy(endDate) && !Truthy(startDate) ==> r.filter.date == None
  {
    if filterType != "roll_no" && filterType != "keyword" then BadFilter
    else
      var field := if filterType == "roll_no" then RollNo else AnswerText;
      var afterStart := if Truthy(startDate) then Some(AtLeast(startDate.value)) else None;
      var afterEnd := if Truthy(endDate) then Some(AtMost(endDate.value)) else afterStart;
      Filter(SearchFilter(field, query, afterEnd))
  }

  /** With both dates given, the start bound is lost: the filter does not
      depend on `startDate` at all. */
  lemma EndDateOverridesStart(query: string, filterType: string, s1: Option<string>, s2: Option<string>, e: string)
    requires e != ""
    ensures SearchFeedbackFilter(query, filterType, s1, Some(e)) == SearchFeedbackFilter(query, filterType, s2, Some(e))
  {
  }
}
