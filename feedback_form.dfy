/** The student feedback form of frontend/.../user/UserFeedback.js: the
    question list, the two answer maps and the `{question, answer}` list the
    form posts to `submit_feedback`. JavaScript objects are ordered dicts; a
    missing entry reads as `undefined`, which JSON drops, so an answer is an
    `Option`. */
module FeedbackForm {
  import opened Options
  import opened OrderedDict
  import Records
  import Users

  const AdditionalId: string := "additional"
  const AdditionalText: string := "Do you want to include something?"

  datatype FormQuestion = FormQuestion(id: string, question: string)

  /** The fetched questions followed by the free-text question
      (UserFeedback.js:16). */
  function QuestionList(fetched: seq<FormQuestion>): (r: seq<FormQuestion>)
    ensures |r| == |fetched| + 1 && r[..|fetched|] == fetched
    ensures r[|fetched|] == FormQuestion(AdditionalId, AdditionalText)
  {
    fetched + [FormQuestion(AdditionalId, AdditionalText)]
  }

  /** The answer posted for one question (UserFeedback.js:44): the free text
      for the additional question and for a choice of 'Other', otherwise the
      chosen option. */
  function AnswerFor(q: FormQuestion, answers: Dict<string, string>, otherInputs: Dict<string, string>): (r: Option<string>)
    ensures q.id == AdditionalId ==> r == Lookup(otherInputs, q.id)
    ensures q.id != AdditionalId && Lookup(answers, q.id) == Some("Other") ==> r == Lookup(otherInputs, q.id)
    ensures q.id != AdditionalId && Lookup(answers, q.id) != Some("Other") ==> r == Lookup(answers, q.id)
  {
    if q.id == AdditionalId then Lookup(otherInputs, q.id)
    else if Lookup(answers, q.id) == Some("Other") then Lookup(otherInputs, q.id)
    else Lookup(answers, q.id)
  }

  /** `questions.map(q => ({question, answer}))` */
  function Assemble(questions: seq<FormQuestion>, answers: Dict<string, string>, otherInputs: Dict<string, string>): (r: seq<Records.Answer>)
    ensures |r| == |questions|
    ensures forall i :: 0 <= i < |questions| ==>
      r[i] == Records.Answer(questions[i].question, AnswerFor(questions[i], answers, otherInputs))
  {
    seq(|questions|, i requires 0 <= i < |questions| =>
      Records.Answer(questions[i].question, AnswerFor(questions[i], answers, otherInputs)))
  }

  /** The last posted entry is the free-text question with its free text,
      and that is the answer the backend classifies. */
  lemma LastEntryIsAdditional(fetched: seq<FormQuestion>, answers: Dict<string, string>, otherInputs: Dict<string, string>)
    ensures var posted := Assemble(QuestionList(fetched), answers, otherInputs);
      && posted[|posted| - 1] == Records.Answer(AdditionalText, Lookup(otherInputs, AdditionalId))
      && Users.LastAnswer(Some(posted)) == Lookup(otherInputs, AdditionalId)
  {
  }

  /** When the free-text box was never typed in, the posted list has no last
      answer, and the backend fails the submission (500) for every user. */
  lemma UntypedAdditionalFails(fetched: seq<FormQuestion>, answers: Dict<string, string>,
                               otherInputs: Dict<string, string>, startTime: Option<int>, uid: string)
    requires !HasKey(otherInputs, AdditionalId)
    ensures Users.Malformed(Some(Assemble(QuestionList(fetched), answers, otherInputs)), startTime, uid)
  {
    LastEntryIsAdditional(fetched, answers, otherInputs);
  }

  /** `Math.floor(ms / 1000)` */
  function StartSeconds(ms: int): (s: int)
    ensures s * 1000 <= ms < s * 1000 + 1000
  {
    ms / 1000
  }

  class FormState {
    var questions: seq<FormQuestion>
    var answers: Dict<string, string>
    var otherInputs: Dict<string, string>
    /** `startTime` in milliseconds, `null` until the questions loaded. */
    var startMs: Option<int>

    ghost predicate Valid()
      reads this
    {
      DistinctKeys(answers) && DistinctKeys(otherInputs)
    }

    constructor ()
      ensures Valid()
      ensures questions == [] && answers == [] && otherInputs == [] && startMs == None
    {
      questions, answers, otherInputs, startMs := [], [], [], None;
    }

    /** The load effect: on success the question list and the start time are
        set; on failure they stay as they were. */
    method Load(fetched: Option<seq<FormQuestion>>, nowMs: int)
      modifies this
      ensures fetched.Some? ==> questions == QuestionList(fetched.value) && startMs == Some(nowMs)
      ensures fetched.None? ==> questions == old(questions) && startMs == old(startMs)
      ensures answers == old(answers) && otherInputs == old(otherInputs)
    {
      if fetched.Some? {
        questions := QuestionList(fetched.value);
        startMs := Some(nowMs);
      }
    }

    /** `handleOptionChange` (UserFeedback.js:28-33): only that question's
        answer changes; choosing 'Other' also clears its free text. */
    method HandleOptionChange(qid: string, value: string)
      requires Valid()
      modifies this
      ensures Valid()
      ensures answers == Put(old(answers), qid, value)
      ensures otherInputs == if value == "Other" then Put(old(otherInputs), qid, "") else old(otherInputs)
      ensures forall k :: Lookup(answers, k) == if k == qid then Some(value) else Lookup(old(answers), k)
      ensures questions == old(questions) && startMs == old(startMs)
    {
      forall k ensures Lookup(Put(answers, qid, value), k) == if k == qid then Some(value) else Lookup(answers, k) {
        LookupPut(answers, qid, value, k);
      }
      PutDistinct(answers, qid, value);
      PutDistinct(otherInputs, qid, "");
      answers := Put(answers, qid, value);
      if value == "Other" {
        otherInputs := Put(otherInputs, qid, "");
      }
    }

    /** `handleOtherInputChange` (UserFeedback.js:35-37): only that question's
        free text changes. */
    method HandleOtherInputChange(qid: string, value: string)
      requires Valid()
      modifies this
      ensures Valid()
      ensures otherInputs == Put(old(otherInputs), qid, value)
      ensures forall k :: Lookup(otherInputs, k) == if k == qid then Some(value) else Lookup(old(otherInputs), k)
      ensures answers == old(answers) && questions == old(questions) && startMs == old(startMs)
    {
      forall k ensures Lookup(Put(otherInputs, qid, value), k) == if k == qid then Some(value) else Lookup(otherInputs, k) {
        LookupPut(otherInputs, qid, value, k);
      }
      PutDistinct(otherInputs, qid, value);
      otherInputs := Put(otherInputs, qid, value);
    }

    /** The payload of `handleSubmit` (UserFeedback.js:39-53): `None` when
        `startTime` is still `null` and the handler throws before posting. */
    method Submit() returns (payload: Option<(seq<Records.Answer>, int)>)
      ensures startMs.None? ==> payload.None?
      ensures startMs.Some? ==> payload == Some((Assemble(questions, answers, otherInputs), StartSeconds(startMs.value)))
    {
      if startMs.None? {
        return None;
      }
      var posted := Assemble(questions, answers, otherInputs);
      payload := Some((posted, StartSeconds(startMs.value)));
    }
  }
}
