/** The client's state machine (App.tsx `appReducer`) and the dashboard
    card's status badge (`DashboardCard.getFormStatus`). */
module App {
  import opened Seqs
  import opened Types

  datatype AppState = AppState(user: Option<User>, forms: seq<Form>, submissions: seq<Submission>,
                               loading: bool, error: Option<string>)

  datatype Action =
    | Login(user: User)
    | Logout
    | AddForm(form: Form)
    | UpdateForm(form: Form)
    | DeleteForm(formId: string)
    | AddSubmission(submission: Submission)
    | SetLoading(loading: bool)
    | SetError(error: Option<string>)
    | SetState(sessionUser: Option<User>, forms: seq<Form>, submissions: seq<Submission>)
    | SetForms(forms: seq<Form>)
    | SetSubmissions(submissions: seq<Submission>)
    | Unrecognised(tag: string)

  const InitialState := AppState(None, [], [], true, None)

  /** `forms.map(form => form.id === f.id ? f : form)`. */
  function ReplaceForm(forms: seq<Form>, f: Form): (r: seq<Form>)
  {
    seq(|forms|, k requires 0 <= k < |forms| => if forms[k].id == f.id then f else forms[k])
  }

  /** `appReducer`. Each part of the state changes only under the actions
      that name it; an action the reducer does not know changes nothing. */
  function Reduce(state: AppState, action: Action): (r: AppState)
    ensures action.Unrecognised? ==> r == state
    ensures !(action.Login? || action.Logout? || action.SetState?) ==> r.user == state.user
    ensures !(action.AddForm? || action.UpdateForm? || action.DeleteForm? || action.SetState? || action.SetForms?) ==>
              r.forms == state.forms
    ensures !(action.AddSubmission? || action.DeleteForm? || action.SetState? || action.SetSubmissions?) ==>
              r.submissions == state.submissions
    ensures !(action.SetLoading? || action.SetError?) ==> r.loading == state.loading
    ensures !action.SetError? ==> r.error == state.error
    ensures action.SetError? ==> !r.loading && r.error == action.error
    ensures action.SetLoading? ==> r.loading == action.loading
    ensures action.SetForms? ==> r.forms == action.forms
    ensures action.SetSubmissions? ==> r.submissions == action.submissions
    ensures action.SetState? ==>
              r.user == action.sessionUser && r.forms == action.forms && r.submissions == action.submissions
  {
    match action
    case Login(u) => state.(user := Some(u))
    case Logout => state.(user := None, forms := state.forms, submissions := state.submissions)
    case AddForm(f) => state.(forms := state.forms + [f])
    case UpdateForm(f) => state.(forms := ReplaceForm(state.forms, f))
    case DeleteForm(id) =>
      state.(forms := Filter(state.forms, (f: Form) => f.id != id),
             submissions := Filter(state.submissions, (s: Submission) => s.formId != id))
    case AddSubmission(s) => state.(submissions := state.submissions + [s])
    case SetLoading(b) => state.(loading := b)
    case SetError(e) => state.(error := e, loading := false)
    case SetState(u, fs, ss) => state.(user := u, forms := fs, submissions := ss)
    case SetForms(fs) => state.(forms := fs)
    case SetSubmissions(ss) => state.(submissions := ss)
    case Unrecognised(_) => state
  }

  /** LOGIN installs the user and LOGOUT clears it; neither touches the forms or the submissions. */
  lemma LoginAndLogout(state: AppState, u: User)
    ensures Reduce(state, Login(u)) == state.(user := Some(u))
    ensures Reduce(state, Logout) == state.(user := None)
  {
  }

  /** ADD_FORM and ADD_SUBMISSION put exactly one element at the end and keep the earlier ones. */
  lemma AddsAppendOne(state: AppState, f: Form, s: Submission)
    ensures var r := Reduce(state, AddForm(f));
            |r.forms| == |state.forms| + 1 && r.forms[..|state.forms|] == state.forms &&
            r.forms[|state.forms|] == f && r.submissions == state.submissions
    ensures var r := Reduce(state, AddSubmission(s));
            |r.submissions| == |state.submissions| + 1 &&
            r.submissions[..|state.submissions|] == state.submissions &&
            r.submissions[|state.submissions|] == s && r.forms == state.forms
  {
  }

  /** UPDATE_FORM keeps the length and every form's id and position; the forms
      carrying the payload's id become the payload, the others stay. */
  lemma UpdateFormReplacesMatching(state: AppState, f: Form)
    ensures var r := Reduce(state, UpdateForm(f));
            && |r.forms| == |state.forms|
            && (forall k :: 0 <= k < |r.forms| ==> r.forms[k].id == state.forms[k].id)
            && (forall k :: 0 <= k < |r.forms| && state.forms[k].id == f.id ==> r.forms[k] == f)
            && (forall k :: 0 <= k < |r.forms| && state.forms[k].id != f.id ==> r.forms[k] == state.forms[k])
  {
  }

  /** DELETE_FORM removes every form with that id and every submission of
      that form, and keeps all the others in their order: no submission is
      left pointing at the deleted form. */
  lemma DeleteFormCascades(state: AppState, id: string)
    ensures var r := Reduce(state, DeleteForm(id));
            && IsSubsequence(r.forms, state.forms)
            && IsSubsequence(r.submissions, state.submissions)
            && (forall k :: 0 <= k < |r.forms| ==> r.forms[k].id != id)
            && (forall k :: 0 <= k < |r.submissions| ==> r.submissions[k].formId != id)
            && (forall k :: 0 <= k < |state.forms| && state.forms[k].id != id ==> state.forms[k] in r.forms)
            && (forall k :: 0 <= k < |state.submissions| && state.submissions[k].formId != id ==>
                  state.submissions[k] in r.submissions)
  {
    FilterIsSubsequence(state.forms, (f: Form) => f.id != id);
    FilterIsSubsequence(state.submissions, (s: Submission) => s.formId != id);
  }

  /** The badge a form card shows for its number of submissions. */
  datatype FormStatus = Unanswered | FewAnswers | SomeAnswers | ManyAnswers {
    function Text(): string {
      match this
      case Unanswered => "未回答"
      case FewAnswers => "少数回答"
      case SomeAnswers => "中程度"
      case ManyAnswers => "多数回答"
    }
    function Color(): string {
      match this
      case Unanswered => "text-gray-500"
      case FewAnswers => "text-yellow-600"
      case SomeAnswers => "text-blue-600"
      case ManyAnswers => "text-green-600"
    }
    function BgColor(): string {
      match this
      case Unanswered => "bg-gray-100"
      case FewAnswers => "bg-yellow-100"
      case SomeAnswers => "bg-blue-100"
      case ManyAnswers => "bg-green-100"
    }
  }

  /** `getFormStatus`: the four badges split the counts into 0, 1-4, 5-19 and 20 or more. */
  function StatusOf(submissionCount: nat): (r: FormStatus)
    ensures r == Unanswered <==> submissionCount == 0
    ensures r == FewAnswers <==> 1 <= submissionCount <= 4
    ensures r == SomeAnswers <==> 5 <= submissionCount <= 19
    ensures r == ManyAnswers <==> submissionCount >= 20
  {
    if submissionCount == 0 then Unanswered
    else if submissionCount < 5 then FewAnswers
    else if submissionCount < 20 then SomeAnswers
    else ManyAnswers
  }
}
