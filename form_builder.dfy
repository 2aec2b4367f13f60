/** The form editor (App.tsx `FormBuilder`): the title, the description and
    the list of questions being edited, and the helpers that change them. */
module FormBuilder {
  import opened Seqs
  import opened Types
  import FormsApi

  const TitleRequiredMessage := "フォームのタイトルは必須です。"
  const QuestionIdPrefix := "q-"

  /** One call of `updateQuestion(index, field, value)`, by field. */
  datatype QuestionEdit =
    | SetId(id: string)
    | SetText(text: string)
    | SetKind(kind: QuestionType)
    | SetOptions(options: Option<seq<string>>)
    | SetRequired(required: bool)

  predicate HasOptions(kind: QuestionType) {
    kind == Radio || kind == Checkbox
  }

  /** The question after one edit: the named field takes the value, and
      switching to a kind without options also empties the options. */
  function Edited(q: Question, edit: QuestionEdit): (r: Question)
    ensures edit.SetId? ==> r == q.(id := edit.id)
    ensures edit.SetText? ==> r == q.(text := edit.text)
    ensures edit.SetKind? ==> r.kind == edit.kind && r.id == q.id && r.text == q.text && r.required == q.required
    ensures edit.SetKind? && !HasOptions(edit.kind) ==> r.options == Some([])
    ensures edit.SetKind? && HasOptions(edit.kind) ==> r.options == q.options
    ensures edit.SetOptions? ==> r == q.(options := edit.options)
    ensures edit.SetRequired? ==> r == q.(required := edit.required)
  {
    match edit
    case SetId(v) => q.(id := v)
    case SetText(v) => q.(text := v)
    case SetKind(v) => if HasOptions(v) then q.(kind := v) else q.(kind := v, options := Some([]))
    case SetOptions(v) => q.(options := v)
    case SetRequired(v) => q.(required := v)
  }

  /** What `saveForm` does with the editor's contents. */
  datatype SaveRequest =
    | Rejected(message: string)
    | CreateRequest(body: FormsApi.FormBody)
    | UpdateRequest(id: string, patch: FormsApi.FormPatch)

  class Builder {
    var title: string
    var description: string
    var questions: seq<Question>

    /** A new, empty editor. */
    constructor ()
      ensures title == "" && description == "" && questions == []
    {
      title := "";
      description := "";
      questions := [];
    }

    /** Loading an existing form or a template copies its title, description and questions. */
    method Load(form: Form)
      modifies this
      ensures title == form.title && description == form.description && questions == form.questions
    {
      title := form.title;
      description := form.description;
      questions := form.questions;
    }

    /** `addQuestion`: a new optional TEXT question with an empty text at the end. */
    method AddQuestion(stamp: string)
      modifies this
      ensures questions == old(questions) + [Question(QuestionIdPrefix + stamp, "", Text, None, false)]
      ensures title == old(title) && description == old(description)
    {
      questions := questions + [Question(QuestionIdPrefix + stamp, "", Text, None, false)];
    }

    /** `updateQuestion`: only the question at `index` changes, by `Edited`. */
    method UpdateQuestion(index: nat, edit: QuestionEdit)
      requires index < |questions|
      modifies this
      ensures questions == old(questions)[index := Edited(old(questions)[index], edit)]
      ensures title == old(title) && description == old(description)
    {
      questions := questions[index := Edited(questions[index], edit)];
    }

    /** `updateQuestionOption`: option `optionIndex` of question `index` takes the new text. */
    method UpdateQuestionOption(index: nat, optionIndex: nat, value: string)
      requires index < |questions| && questions[index].options.Some?
      requires optionIndex < |questions[index].options.value|
      modifies this
      ensures |questions| == |old(questions)|
      ensures forall k :: 0 <= k < |questions| && k != index ==> questions[k] == old(questions)[k]
      ensures questions[index] ==
                old(questions)[index].(options := Some(old(questions)[index].options.value[optionIndex := value]))
      ensures title == old(title) && description == old(description)
    {
      var q := questions[index];
      questions := questions[index := q.(options := Some(q.options.value[optionIndex := value]))];
    }

    /** `addQuestionOption`: an empty option at the end of question `index`'s
        options, which are created when the question has none. */
    method AddQuestionOption(index: nat)
      requires index < |questions|
      modifies this
      ensures |questions| == |old(questions)|
      ensures forall k :: 0 <= k < |questions| && k != index ==> questions[k] == old(questions)[k]
      ensures questions[index] == old(questions)[index].(options := Some(old(questions)[index].options.GetOr([]) + [""]))
      ensures title == old(title) && description == old(description)
    {
      var q := questions[index];
      questions := questions[index := q.(options := Some(q.options.GetOr([]) + [""]))];
    }

    /** `removeQuestionOption`: `splice(optionIndex, 1)` removes that option
        and closes up the rest; past the end it removes nothing. */
    method RemoveQuestionOption(index: nat, optionIndex: nat)
      requires index < |questions| && questions[index].options.Some?
      modifies this
      ensures |questions| == |old(questions)|
      ensures forall k :: 0 <= k < |questions| && k != index ==> questions[k] == old(questions)[k]
      ensures var was := old(questions)[index].options.value;
              questions[index] == old(questions)[index].(options :=
                Some(if optionIndex < |was| then RemoveAt(was, optionIndex) else was))
      ensures title == old(title) && description == old(description)
    {
      var q := questions[index];
      var opts := q.options.value;
      if optionIndex < |opts| {
        questions := questions[index := q.(options := Some(RemoveAt(opts, optionIndex)))];
      }
    }

    /** `removeQuestion`: `filter((_, i) => i !== index)` drops exactly that
        position, so an index outside the list removes nothing. */
    method RemoveQuestion(index: int)
      modifies this
      ensures 0 <= index < |old(questions)| ==> questions == RemoveAt(old(questions), index)
      ensures !(0 <= index < |old(questions)|) ==> questions == old(questions)
      ensures title == old(title) && description == old(description)
    {
      if 0 <= index < |questions| {
        questions := RemoveAt(questions, index);
      }
    }

    /** `saveForm`: refused while the title is empty; otherwise the editor's
        contents, with the user as author, go to create (a new form) or to
        update (the form being edited). */
    function Save(user: User, editing: Option<string>): (r: SaveRequest)
      reads this
      ensures r.Rejected? <==> title == ""
      ensures r.Rejected? ==> r.message == TitleRequiredMessage
      ensures r.CreateRequest? <==> title != "" && editing.None?
      ensures r.CreateRequest? ==>
                r.body == FormsApi.FormBody(None, title, description, questions, user.email)
      ensures r.UpdateRequest? ==>
                && editing == Some(r.id)
                && r.patch == FormsApi.FormPatch(None, Some(title), Some(description), Some(questions),
                                                 Some(user.email), None)
    {
      if title == "" then Rejected(TitleRequiredMessage)
      else match editing
        case None => CreateRequest(FormsApi.FormBody(None, title, description, questions, user.email))
        case Some(id) =>
          UpdateRequest(id, FormsApi.FormPatch(None, Some(title), Some(description), Some(questions),
                                               Some(user.email), None))
    }
  }

  /** Removing the question just added gives the earlier list back. */
  lemma RemoveAddedQuestion(questions: seq<Question>, q: Question)
    ensures RemoveAt(questions + [q], |questions|) == questions
  {
    assert (questions + [q])[..|questions|] == questions;
  }

  /** An update built by `Save` and applied by the form handler keeps the
      form's id and creation time and takes everything else from the editor. */
  lemma SavedUpdateCarriesEditor(f: FormsApi.FormRecord, title: string, description: string,
                                 questions: seq<Question>, user: User, now: string)
    ensures var r := FormsApi.Overlay(f, FormsApi.FormPatch(None, Some(title), Some(description),
                                                            Some(questions), Some(user.email), None), now);
            r == FormsApi.FormRecord(f.id, title, description, questions, user.email, f.createdAt, now)
  {
  }
}
