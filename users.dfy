/** The student/staff routes of backend/app/users.py: `login` and
    `submit_feedback`. The module-level `session` dict is one optional
    logged-in user; the clock, the sentiment model's output, the library
    records and the category configuration are parameters, and so are the
    ids `insert_one` assigns. */
module Users {
  import opened Options
  import opened Text
  import opened Records
  import Pipeline
  import AdminIssues

  const OfficialDomain: string := "@psgtech.ac.in"
  const CooldownDays: int := 30

  datatype SessionUser = SessionUser(email: string, rollNo: string)

  /** `session["email"]` and `session["roll_no"]`, always set together. */
  class Session {
    var current: Option<SessionUser>

    constructor ()
      ensures current == None
    {
      current := None;
    }
  }

  /** `email.split("@")[0]` */
  function Uid(email: string): string {
    BeforeFirst(email, '@')
  }

  predicate IsMemberWith(u: User, email: string) {
    u.Member? && u.email == email
  }

  predicate HasMember(users: seq<User>, email: string) {
    exists j :: 0 <= j < |users| && IsMemberWith(users[j], email)
  }

  /** The first user document with that email (`find_one` and `update_one`
      act on it; admin documents carry no email). */
  function FindMember(users: seq<User>, email: string): (r: Option<nat>)
    ensures r.Some? ==> r.value < |users| && IsMemberWith(users[r.value], email)
    ensures r.Some? ==> forall j :: 0 <= j < r.value ==> !IsMemberWith(users[j], email)
    ensures r.None? <==> !HasMember(users, email)
  {
    if users == [] then None
    else if IsMemberWith(users[0], email) then Some(0)
    else match FindMember(users[1..], email)
      case None =>
        assert forall j :: 1 <= j < |users| ==> users[j] == users[1..][j - 1];
        None
      case Some(i) => Some(i + 1)
  }

  /** `$set: {"last_login": t}` on a user document. */
  function WithLastLogin(u: User, t: int): (r: User)
    ensures r.lastLogin == Some(t)
  {
    match u
    case Admin(name, password, _) => Admin(name, password, Some(t))
    case Member(email, rollNo, lastFeedback, _) => Member(email, rollNo, lastFeedback, Some(t))
  }

  /** `$set: {"last_feedback": t}` on a member document. */
  function WithLastFeedback(u: User, t: int): (r: User)
    requires u.Member?
    ensures r == Member(u.email, u.rollNo, Some(t), u.lastLogin)
  {
    Member(u.email, u.rollNo, Some(t), u.lastLogin)
  }

  /** `(now - t).days`: whole days, rounded down. */
  function DaysSince(now: int, t: int): int {
    (now - t) / DaySeconds
  }

  /** The days since the last feedback of a returning user, when they are
      fewer than 30 and the login must be refused. */
  function RecentFeedback(users: seq<User>, email: string, now: int): (r: Option<int>)
    ensures r.Some? ==> r.value < CooldownDays
    ensures r.Some? <==>
      && HasMember(users, email)
      && users[FindMember(users, email).value].lastFeedback.Some?
      && DaysSince(now, users[FindMember(users, email).value].lastFeedback.value) < CooldownDays
  {
    match FindMember(users, email)
    case None => None
    case Some(i) =>
      match users[i].lastFeedback
      case None => None
      case Some(t) => if DaysSince(now, t) < CooldownDays then Some(DaysSince(now, t)) else None
  }

  /** The user collection after an accepted login: a returning user gets a
      new `last_login`, a new one is inserted with the lower-cased uid. */
  function UsersAfterLogin(users: seq<User>, email: string, now: int): seq<User> {
    match FindMember(users, email)
    case None => users + [Member(email, Lower(Uid(email)), None, Some(now))]
    case Some(i) => users[i := WithLastLogin(users[i], now)]
  }

  datatype LoginReply =
    | LoggedIn(email: string)   // 200
    | NotOfficial               // 403 "Only Official emails are allowed"
    | TooSoon(waitDays: int)    // 403 "Please wait … days"
    | LoginError                // 500: the body has no email

  /** `POST /login` (users.py:20-68). */
  method Login(db: Database, session: Session, email: Option<string>, now: int) returns (reply: LoginReply)
    modifies db, session
    ensures email.None? || !EndsWith(email.value, OfficialDomain) || RecentFeedback(old(db.users), email.value, now).Some? ==>
      db.users == old(db.users) && db.userLogs == old(db.userLogs) && session.current == old(session.current)
    ensures email.None? ==> reply == LoginError
    ensures email.Some? && !EndsWith(email.value, OfficialDomain) ==> reply == NotOfficial
    ensures email.Some? && EndsWith(email.value, OfficialDomain) && RecentFeedback(old(db.users), email.value, now).Some? ==>
      reply == TooSoon(CooldownDays - RecentFeedback(old(db.users), email.value, now).value)
    ensures email.Some? && EndsWith(email.value, OfficialDomain) && RecentFeedback(old(db.users), email.value, now).None? ==>
      && reply == LoggedIn(email.value)
      && db.users == UsersAfterLogin(old(db.users), email.value, now)
      && db.userLogs == old(db.userLogs) + [LogEntry(Uid(email.value), now)]
      && session.current == Some(SessionUser(email.value, Uid(email.value)))
    ensures db.feedback == old(db.feedback) && db.questions == old(db.questions) && db.issues == old(db.issues)
  {
    if email.None? {
      return LoginError;
    }
    var e := email.value;
    if !EndsWith(e, OfficialDomain) {
      return NotOfficial;
    }
    var uid := Uid(e);
    var existing := FindMember(db.users, e);
    if existing.Some? {
      var i := existing.value;
      if db.users[i].lastFeedback.Some? {
        var days := DaysSince(now, db.users[i].lastFeedback.value);
        if days < CooldownDays {
          return TooSoon(CooldownDays - days);
        }
      }
      db.users := db.users[i := WithLastLogin(db.users[i], now)];
    } else {
      db.users := db.users + [Member(e, Lower(uid), None, Some(now))];
    }
    db.userLogs := db.userLogs + [LogEntry(uid, now)];
    session.current := Some(SessionUser(e, uid));
    reply := LoggedIn(e);
  }

  /** After an accepted login the user is on record with this login time; a
      first-time user is appended with the lower-cased uid and no feedback
      yet, and no other user document changes. */
  lemma LoginRecordsUser(users: seq<User>, email: string, now: int)
    ensures var after := UsersAfterLogin(users, email, now);
      && FindMember(after, email).Some?
      && after[FindMember(after, email).value].lastLogin == Some(now)
      && (!HasMember(users, email) ==>
            after == users + [Member(email, Lower(Uid(email)), None, Some(now))])
      && (HasMember(users, email) ==>
            |after| == |users|
            && (forall j :: 0 <= j < |users| && j != FindMember(users, email).value ==> after[j] == users[j]))
  {
    var after := UsersAfterLogin(users, email, now);
    match FindMember(users, email)
    case None =>
      FindMemberAt(after, email, |users|);
    case Some(i) =>
      FindMemberAt(after, email, i);
  }

  lemma FindMemberAt(users: seq<User>, email: string, i: nat)
    requires i < |users| && IsMemberWith(users[i], email)
    requires forall j :: 0 <= j < i ==> !IsMemberWith(users[j], email)
    ensures FindMember(users, email) == Some(i)
  {
  }

  /** A refused user is told to wait between 1 and 30 days, as long as the
      recorded feedback is not in the future. */
  lemma CooldownWaitRange(users: seq<User>, email: string, now: int)
    requires RecentFeedback(users, email, now).Some?
    requires users[FindMember(users, email).value].lastFeedback.value <= now
    ensures 1 <= CooldownDays - RecentFeedback(users, email, now).value <= CooldownDays
  {
  }

  // ---------------------------------------------------------------------
  // submit_feedback

  /** The user collection after a submission at `now`: `last_feedback` of the
      first document with that email. */
  function UsersAfterFeedback(users: seq<User>, email: string, now: int): seq<User> {
    match FindMember(users, email)
    case None => users
    case Some(i) => users[i := WithLastFeedback(users[i], now)]
  }

  /** A submission re-arms the cooldown: a login within 30 days is refused
      with the days since that submission, and one 30 days later or more is
      accepted again. */
  lemma SubmissionRearmsCooldown(users: seq<User>, email: string, submitted: int, now: int)
    requires HasMember(users, email)
    ensures var after := UsersAfterFeedback(users, email, submitted);
      && (now - submitted < CooldownDays * DaySeconds ==>
            RecentFeedback(after, email, now) == Some(DaysSince(now, submitted)))
      && (now - submitted >= CooldownDays * DaySeconds ==> RecentFeedback(after, email, now).None?)
  {
    var i := FindMember(users, email).value;
    var after := UsersAfterFeedback(users, email, submitted);
    FindMemberAt(after, email, i);
  }

  /** users.py:108-113: a uid starting with a digit (a student) is scored
      from the library records under its upper-cased form; anyone else gets
      the top score. */
  function UserScore(uid: string, hasRecords: bool, weighted: real): (real, Pipeline.Priority)
    requires |uid| > 0
  {
    if IsDigit(uid[0]) then Pipeline.FeedbackScore(Upper(uid), hasRecords, weighted)
    else (1.0, Pipeline.High)
  }

  /** A student uid never takes the faculty shortcut: its score comes from the
      records, or is the lowest without them. */
  lemma StudentScore(uid: string, hasRecords: bool, weighted: real)
    requires |uid| > 0 && IsDigit(uid[0])
    ensures !hasRecords ==> UserScore(uid, hasRecords, weighted) == (0.0, Pipeline.Low)
    ensures hasRecords ==> UserScore(uid, hasRecords, weighted) == (weighted, Pipeline.Tier(weighted))
  {
    UpperKeepsDigitHead(uid);
    assert Upper(uid)[..1] == [uid[0]];
  }

  /** The last answer's text, when the list has one and it has an `answer`. */
  function LastAnswer(feedback: Option<seq<Answer>>): Option<string> {
    if feedback.None? || |feedback.value| == 0 then None
    else feedback.value[|feedback.value| - 1].answer
  }

  /** The request cannot be processed: a missing or empty `feedback`, a last
      entry without `answer`, an empty uid or a missing `start_time` raise
      before anything is written (500). */
  predicate Malformed(feedback: Option<seq<Answer>>, startTime: Option<int>, uid: string) {
    LastAnswer(feedback).None? || |uid| == 0 || startTime.None?
  }

  datatype SubmitReply =
    | Submitted(timeTaken: int)   // 200
    | Unauthorized                // 403
    | SubmitError                 // 500

  /** The submission stops before its first write: no session, a malformed
      request, or an ISSUE whose categories cannot be loaded. */
  predicate StopsBeforeWrites(signedIn: Option<SessionUser>, feedback: Option<seq<Answer>>, startTime: Option<int>,
                              sentiment: seq<Pipeline.Sentiment>, config: Option<Pipeline.Config>)
    requires |sentiment| > 0
  {
    || signedIn.None?
    || Malformed(feedback, startTime, signedIn.value.rollNo)
    || (&& Pipeline.ClassifyFeedback(LastAnswer(feedback).value, sentiment).0 == Pipeline.IssueLabel
        && Pipeline.Classify(LastAnswer(feedback).value, config).ConfigError?)
  }

  /** `POST /submit_feedback` (users.py:95-170). The last answer is
      classified; an ISSUE is stored as a PENDING issue with its keyword
      category; the feedback document records whether it raised one; the
      thank-you mail is sent; and the user's `last_feedback` becomes the
      submission time. The mail itself is not modelled, only whether sending
      it raised (`mailOk`): that happens after both inserts, so the route
      then answers 500 with the documents stored and `last_feedback` unset. */
  method SubmitFeedback(db: Database, session: Session, feedback: Option<seq<Answer>>, startTime: Option<int>,
                        now: int, sentiment: seq<Pipeline.Sentiment>, hasRecords: bool, weighted: real,
                        config: Option<Pipeline.Config>, issueId: string, feedbackId: string, mailOk: bool)
    returns (reply: SubmitReply)
    requires |sentiment| > 0
    modifies db
    ensures session.current.None? ==> reply == Unauthorized
    ensures session.current.Some? && Malformed(feedback, startTime, session.current.value.rollNo) ==> reply == SubmitError
    ensures StopsBeforeWrites(session.current, feedback, startTime, sentiment, config) ==>
      && !reply.Submitted?
      && db.issues == old(db.issues) && db.feedback == old(db.feedback) && db.users == old(db.users)
    ensures !StopsBeforeWrites(session.current, feedback, startTime, sentiment, config) ==>
      var user := session.current.value;
      var text := LastAnswer(feedback).value;
      var isIssue := Pipeline.ClassifyFeedback(text, sentiment).0 == Pipeline.IssueLabel;
      var category := Pipeline.Classify(text, config);
      && db.issues == old(db.issues)
           + (if isIssue
              then [Issue(issueId, user.email, text, now, UserScore(user.rollNo, hasRecords, weighted).0,
                          AdminIssues.Pending, Some(category.name), None, "")]
              else [])
      && db.feedback == old(db.feedback)
           + [Feedback(feedbackId, user.email, user.rollNo, feedback.value, now, now - startTime.value, 3, isIssue)]
      && (mailOk ==> reply == Submitted(now - startTime.value) && db.users == UsersAfterFeedback(old(db.users), user.email, now))
      && (!mailOk ==> reply == SubmitError && db.users == old(db.users))
    ensures db.userLogs == old(db.userLogs) && db.questions == old(db.questions)
  {
    if session.current.None? {
      return Unauthorized;
    }
    var email := session.current.value.email;
    var uid := session.current.value.rollNo;
    if feedback.None? || |feedback.value| == 0 || feedback.value[|feedback.value| - 1].answer.None? {
      return SubmitError;
    }
    var answers := feedback.value;
    var text := answers[|answers| - 1].answer.value;
    if |uid| == 0 {
      return SubmitError;
    }
    var score := UserScore(uid, hasRecords, weighted);
    var decision := Pipeline.ClassifyFeedback(text, sentiment);
    if startTime.None? {
      return SubmitError;
    }
    var timeTaken := now - startTime.value;
    var presence := false;
    if decision.0 == Pipeline.IssueLabel {
      presence := true;
      var category := Pipeline.ClassifyIssues(text, config);
      if category.ConfigError? {
        return SubmitError;
      }
      db.issues := db.issues + [Issue(issueId, email, text, now, score.0, AdminIssues.Pending, Some(category.name), None, "")];
    }
    db.feedback := db.feedback + [Feedback(feedbackId, email, uid, answers, now, timeTaken, 3, presence)];
    if !mailOk {
      return SubmitError;
    }
    var member := FindMember(db.users, email);
    if member.Some? {
      var i := member.value;
      db.users := db.users[i := WithLastFeedback(db.users[i], now)];
    }
    reply := Submitted(timeTaken);
  }

  /** An accepted ISSUE submission shows up at once in the issue counts: one
      more issue in total and one more PENDING. */
  lemma NewIssueCountsPending(issues: seq<Issue>, x: Issue)
    requires x.status == AdminIssues.Pending
    ensures AdminIssues.GetIssueCounts(issues + [x]).total == AdminIssues.GetIssueCounts(issues).total + 1
    ensures AdminIssues.GetIssueCounts(issues + [x]).pending == AdminIssues.GetIssueCounts(issues).pending + 1
    ensures AdminIssues.GetIssueCounts(issues + [x]).resolved == AdminIssues.GetIssueCounts(issues).resolved
  {
    assert (issues + [x])[..|issues|] == issues;
  }
}
