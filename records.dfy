/** The documents of the five Mongo collections the backend uses, and the
    database object that holds them. Timestamps are whole seconds since the
    epoch; a calendar day is `t / DaySeconds` (UTC, as `utcnow` and
    `$dateToString` use). */
module Records {
  import opened Options

  const DaySeconds: int := 86400

  /** The UTC day number of a timestamp (floor division, so also right before 1970). */
  function DayOf(t: int): int {
    t / DaySeconds
  }

  /** A document of `issues_collection`. `category` is absent on documents
      not written by the feedback route; `rollNo` is never written by it. */
  datatype Issue = Issue(
    id: string,
    raisedBy: string,
    text: string,
    raiseDate: int,
    userScore: real,
    status: string,
    category: Option<string>,
    rollNo: Option<string>,
    resolvedDate: string)

  /** One `{question, answer}` entry as the form posts it; `answer` is absent
      when the client's value was `undefined`. */
  datatype Answer = Answer(question: string, answer: Option<string>)

  /** A document of `feedback_collection`. */
  datatype Feedback = Feedback(
    id: string,
    email: string,
    rollNo: string,
    answers: seq<Answer>,
    date: int,
    timeTaken: int,
    floorNo: int,
    issuePresence: bool)

  /** A document of `user_logs_collection`. */
  datatype LogEntry = LogEntry(rollNo: string, date: int)

  /** A document of `users_collection`: admins (`role: "admin"`) and students
      or staff (`role: "user"`) share the collection. */
  datatype User =
    | Admin(username: string, password: string, lastLogin: Option<int>)
    | Member(email: string, rollNo: string, lastFeedback: Option<int>, lastLogin: Option<int>)

  /** A document of `questions_collection`. */
  datatype Question = Question(id: string, question: string, options: seq<string>)

  predicate IsHexDigit(c: char) {
    '0' <= c <= '9' || 'a' <= c <= 'f' || 'A' <= c <= 'F'
  }

  /** What `ObjectId(s)` accepts from a URL segment: 24 hexadecimal digits. */
  predicate IsObjectId(s: string) {
    |s| == 24 && forall i :: 0 <= i < |s| ==> IsHexDigit(s[i])
  }

  /** The shared database; each field is one collection in its natural order. */
  class Database {
    var users: seq<User>
    var userLogs: seq<LogEntry>
    var feedback: seq<Feedback>
    var questions: seq<Question>
    var issues: seq<Issue>

    constructor ()
      ensures users == [] && userLogs == [] && feedback == [] && questions == [] && issues == []
    {
      users, userLogs, feedback, questions, issues := [], [], [], [], [];
    }
  }
}
