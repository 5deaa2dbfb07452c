/** The add-question form of frontend/.../admin/AdminQuestions.js: the
    option slots, the payload it posts to `add_feedback_questions`, and the
    reset after a successful post. */
module QuestionForm {
  import opened Options
  import AdminTables

  const InitialOptions: seq<string> := ["", "", "", "", ""]

  /** `newOptions.filter(option => option)`: the non-empty options in order. */
  function NonEmpty(options: seq<string>): (r: seq<string>)
    ensures |r| <= |options|
    ensures forall i :: 0 <= i < |r| ==> r[i] != ""
  {
    if options == [] then []
    else NonEmpty(options[..|options| - 1]) + (if options[|options| - 1] != "" then [options[|options| - 1]] else [])
  }

  /** The filter keeps exactly the non-empty options, and as many of each as
      there were. */
  lemma {:induction false} NonEmptyKeeps(options: seq<string>)
    ensures forall x :: x in NonEmpty(options) <==> x in options && x != ""
    ensures forall x :: x != "" ==> multiset(NonEmpty(options))[x] == multiset(options)[x]
  {
    if options != [] {
      var init := options[..|options| - 1];
      NonEmptyKeeps(init);
      assert options == init + [options[|options| - 1]];
    }
  }

  /** Filling in all slots posts them all, in order. */
  lemma {:induction false} NonEmptyOfFilled(options: seq<string>)
    requires forall i :: 0 <= i < |options| ==> options[i] != ""
    ensures NonEmpty(options) == options
  {
    if options != [] {
      NonEmptyOfFilled(options[..|options| - 1]);
      assert options == options[..|options| - 1] + [options[|options| - 1]];
    }
  }

  /** The body `handleAddQuestion` posts (AdminQuestions.js:45-49). */
  function Request(question: string, options: seq<string>, includeOther: bool): AdminTables.QuestionRequest {
    AdminTables.QuestionRequest(Some(question), Some(NonEmpty(options)), includeOther)
  }

  /** The backend accepts the post exactly when the question is non-empty
      and at least two option slots are filled. */
  lemma AcceptedIff(question: string, options: seq<string>, includeOther: bool)
    ensures AdminTables.AcceptsQuestion(Request(question, options, includeOther))
      <==> question != "" && |NonEmpty(options)| >= 2
  {
  }

  /** The untouched form is refused by the backend. */
  lemma InitialFormRefused(includeOther: bool)
    ensures !AdminTables.AcceptsQuestion(Request("", InitialOptions, includeOther))
  {
  }

  class QuestionFormState {
    var question: string
    var options: seq<string>
    var includeOther: bool
    /** How many times the question list was fetched again. */
    var refetches: nat

    constructor ()
      ensures question == "" && options == InitialOptions && !includeOther && refetches == 0
    {
      question, options, includeOther, refetches := "", InitialOptions, false, 0;
    }

    /** `handleOptionChange(index, value)` writes one slot of a copy
        (AdminQuestions.js:68-72); the form only calls it for an existing
        slot. */
    method HandleOptionChange(index: nat, value: string)
      requires index < |options|
      modifies this
      ensures options == old(options)[index := value]
      ensures question == old(question) && includeOther == old(includeOther) && refetches == old(refetches)
    {
      var updated := options;
      updated := updated[index := value];
      options := updated;
    }

    /** `addOption` appends one empty slot (AdminQuestions.js:74-76). */
    method AddOption()
      modifies this
      ensures options == old(options) + [""]
      ensures question == old(question) && includeOther == old(includeOther) && refetches == old(refetches)
    {
      options := options + [""];
    }

    /** `handleAddQuestion` (AdminQuestions.js:43-57): posts the request;
        when the post succeeds the form is reset and the list refetched,
        when it throws the form is kept. */
    method HandleAddQuestion(postOk: bool) returns (sent: AdminTables.QuestionRequest)
      modifies this
      ensures sent == Request(old(question), old(options), old(includeOther))
      ensures postOk ==> question == "" && options == InitialOptions && !includeOther && refetches == old(refetches) + 1
      ensures !postOk ==>
        && question == old(question) && options == old(options)
        && includeOther == old(includeOther) && refetches == old(refetches)
    {
      sent := Request(question, options, includeOther);
      if postOk {
        question, options, includeOther := "", InitialOptions, false;
        refetches := refetches + 1;
      }
    }
  }
}
