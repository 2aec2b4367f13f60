/** The answer sheet of the form-filling page (App.tsx `FillForm`): the blank
    answers a form starts with, the checkbox toggle, and the required-answer
    check that runs before a submission is sent. */
module FillForm {
  import opened Seqs
  import opened Records
  import opened Types
  import SubmissionsApi

  /** The blank answer of a question: an empty list for CHECKBOX, an empty string otherwise. */
  function Blank(q: Question): Answer {
    if q.kind == Checkbox then Multi([]) else Single("")
  }

  /** The last question carrying `id`: a later question with the same id
      overwrites the blank of an earlier one. */
  function LastWithId(questions: seq<Question>, id: string): (r: Option<Question>)
    ensures r.Some? ==> r.value in questions && r.value.id == id
    ensures r.None? <==> forall k :: 0 <= k < |questions| ==> questions[k].id != id
  {
    if questions == [] then None
    else if questions[|questions| - 1].id == id then Some(questions[|questions| - 1])
    else LastWithId(questions[..|questions| - 1], id)
  }

  function BlankOf(q: Option<Question>): Option<Answer> {
    match q
    case None => None
    case Some(q) => Some(Blank(q))
  }

  /** The initial answers: every question id gets the blank of (the last)
      question with that id, and no other key is present. */
  method InitialAnswers(questions: seq<Question>) returns (answers: Answers)
    ensures forall key :: Lookup(answers, key) == BlankOf(LastWithId(questions, key))
    ensures DistinctKeys(answers)
  {
    answers := [];
    var i := 0;
    while i < |questions|
      invariant 0 <= i <= |questions|
      invariant forall key :: Lookup(answers, key) == BlankOf(LastWithId(questions[..i], key))
      invariant DistinctKeys(answers)
    {
      var q := questions[i];
      answers := Put(answers, q.id, Blank(q));
      assert questions[..i + 1][..i] == questions[..i];
      i := i + 1;
    }
    assert questions[..i] == questions;
  }

  /** With distinct question ids each question's key holds its own blank. */
  lemma {:induction false} DistinctIdsOwnBlank(questions: seq<Question>, k: nat)
    requires forall i, j :: 0 <= i < j < |questions| ==> questions[i].id != questions[j].id
    requires k < |questions|
    ensures LastWithId(questions, questions[k].id) == Some(questions[k])
  {
    if k < |questions| - 1 {
      assert questions[..|questions| - 1][k] == questions[k];
      DistinctIdsOwnBlank(questions[..|questions| - 1], k);
    }
  }

  /** `(prev[questionId] as string[]) || []`: the list under the key, or an
      empty one when the key holds nothing or an empty string. */
  function CurrentItems(a: Option<Answer>): seq<string> {
    match a
    case Some(Multi(items)) => items
    case _ => []
  }

  /** The filter condition of an unchecked option. */
  function IsNot(option: string): string -> bool {
    (item: string) => item != option
  }

  /** `handleCheckboxChange`: checking appends the option to the listed ones;
      unchecking removes every occurrence of it and keeps the rest in
      order; no other key changes. */
  function ToggleCheckbox(answers: Answers, questionId: string, option: string, checked: bool): (r: Answers)
    ensures Lookup(r, questionId).Some? && Lookup(r, questionId).value.Multi?
    ensures var now := Lookup(r, questionId).value.items;
            var was := CurrentItems(Lookup(answers, questionId));
            && (checked ==> |now| == |was| + 1 && now[..|was|] == was && now[|was|] == option)
            && (!checked ==> IsSubsequence(now, was))
            && (!checked ==> forall k :: 0 <= k < |now| ==> now[k] != option)
            && (!checked ==> forall k :: 0 <= k < |was| && was[k] != option ==> was[k] in now)
            && (!checked ==> multiset(now) == multiset(was)[option := 0])
    ensures forall key :: key != questionId ==> Lookup(r, key) == Lookup(answers, key)
  {
    var current := CurrentItems(Lookup(answers, questionId));
    if checked then
      Put(answers, questionId, Multi(current + [option]))
    else
      FilterIsSubsequence(current, IsNot(option));
      FilterMultiplicity(current, IsNot(option));
      assert multiset(Filter(current, IsNot(option))) == multiset(current)[option := 0];
      Put(answers, questionId, Multi(Filter(current, IsNot(option))))
  }

  /** Checking an option that was not listed and then unchecking it gives the list back. */
  lemma CheckThenUncheck(answers: Answers, questionId: string, items: seq<string>, option: string)
    requires Lookup(answers, questionId) == Some(Multi(items))
    requires option !in items
    ensures var r := ToggleCheckbox(ToggleCheckbox(answers, questionId, option, true), questionId, option, false);
            forall key :: Lookup(r, key) == Lookup(answers, key)
  {
    var checked := ToggleCheckbox(answers, questionId, option, true);
    assert Lookup(checked, questionId) == Some(Multi(items + [option]));
    UncheckAppended(items, option);
    var r := ToggleCheckbox(checked, questionId, option, false);
    assert Lookup(r, questionId) == Some(Multi(items));
  }

  /** Filtering out an option just appended to a list without it gives the list back. */
  lemma UncheckAppended(items: seq<string>, option: string)
    requires option !in items
    ensures Filter(items + [option], IsNot(option)) == items
  {
    var keep := IsNot(option);
    FilterAppend(items, option, keep);
    assert forall k :: 0 <= k < |items| ==> keep(items[k]);
    FilterKeepsAll(items, keep);
  }

  /** An answer that passes the required check: truthy and not an empty list. */
  predicate Filled(a: Option<Answer>) {
    Truthy(a) && !(a.Some? && a.value.Multi? && a.value.items == [])
  }

  predicate MissingRequired(q: Question, answers: Answers) {
    q.required && !Filled(Lookup(answers, q.id))
  }

  /** A blank answer never passes the required check, and a checked box always does. */
  lemma BlankIsNotFilled(q: Question, answers: Answers, option: string)
    ensures !Filled(Some(Blank(q)))
    ensures Filled(Lookup(ToggleCheckbox(answers, q.id, option, true), q.id))
  {
  }

  /** The validation loop of `handleSubmit`: the index of the first required
      question without a filled answer, or `None` when every required one has one. */
  method FirstMissingRequired(questions: seq<Question>, answers: Answers) returns (r: Option<nat>)
    ensures r.Some? ==> r.value < |questions| && MissingRequired(questions[r.value], answers)
    ensures r.Some? ==> forall k :: 0 <= k < r.value ==> !MissingRequired(questions[k], answers)
    ensures r.None? <==> forall k :: 0 <= k < |questions| ==> !MissingRequired(questions[k], answers)
  {
    var i := 0;
    while i < |questions|
      invariant 0 <= i <= |questions|
      invariant forall k :: 0 <= k < i ==> !MissingRequired(questions[k], answers)
    {
      var q := questions[i];
      if q.required {
        var answer := Lookup(answers, q.id);
        if !Truthy(answer) || (answer.value.Multi? && answer.value.items == []) {
          return Some(i);
        }
      }
      i := i + 1;
    }
    r := None;
  }

  function RequiredMessage(q: Question): string {
    "質問「" + q.text + "」は必須です。"
  }

  /** `handleSubmit` up to the create call: the alert for the first unanswered
      required question, or the body sent to the submission handler. */
  method PrepareSubmission(form: Form, user: User, answers: Answers) returns (r: Result<SubmissionsApi.SubmissionBody>)
    ensures r.Ok? <==> forall k :: 0 <= k < |form.questions| ==> !MissingRequired(form.questions[k], answers)
    ensures r.Err? ==> exists k :: 0 <= k < |form.questions| && MissingRequired(form.questions[k], answers) &&
                                    r.message == RequiredMessage(form.questions[k]) &&
                                    forall j :: 0 <= j < k ==> !MissingRequired(form.questions[j], answers)
    ensures r.Ok? ==> r.value == SubmissionsApi.SubmissionBody(None, form.id, user.email, answers, None)
  {
    var missing := FirstMissingRequired(form.questions, answers);
    if missing.Some? {
      return Err(RequiredMessage(form.questions[missing.value]));
    }
    r := Ok(SubmissionsApi.SubmissionBody(None, form.id, user.email, answers, None));
  }
}
