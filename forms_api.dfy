/** The form handler (api/forms.js): a module-level array of forms behind
    list, get-by-id, create, update and delete, with delete also filtering a
    second module-level array of submissions. That second array belongs to
    this handler alone: nothing ever adds to it (the submission handler keeps
    its own), so `Valid` records that it stays empty. */
module FormsApi {
  import opened Seqs
  import opened Types

  const NotFoundError := "Form not found"
  const IdPrefix := "form-"

  /** A stored form: the client's fields plus the server's time stamps. */
  datatype FormRecord = FormRecord(id: string, title: string, description: string,
                                   questions: seq<Question>, createdBy: string,
                                   createdAt: string, updatedAt: string)

  /** The body of a POST as the client sends it (`Omit<Form, 'id'>`). An `id`
      in the body is spread after the generated one and so replaces it. */
  datatype FormBody = FormBody(id: Option<string>, title: string, description: string,
                               questions: seq<Question>, createdBy: string)

  /** The body of a PUT (`Partial<Form>`): only the fields present are overlaid. */
  datatype FormPatch = FormPatch(id: Option<string>, title: Option<string>,
                                 description: Option<string>, questions: Option<seq<Question>>,
                                 createdBy: Option<string>, createdAt: Option<string>)

  ghost predicate UniqueIds(forms: seq<FormRecord>) {
    forall i, j :: 0 <= i < j < |forms| ==> forms[i].id != forms[j].id
  }

  /** `forms.findIndex(form => form.id === id)`, with -1 as `None`. */
  function IndexOfForm(forms: seq<FormRecord>, id: string): (r: Option<nat>)
    ensures r.Some? ==> r.value < |forms| && forms[r.value].id == id
    ensures r.Some? ==> forall k :: 0 <= k < r.value ==> forms[k].id != id
    ensures r.None? <==> forall k :: 0 <= k < |forms| ==> forms[k].id != id
  {
    if forms == [] then None
    else if forms[0].id == id then Some(0)
    else match IndexOfForm(forms[1..], id)
      case None => None
      case Some(i) => Some(i + 1)
  }

  /** `{...form, ...patch, updatedAt: now}`. */
  function Overlay(f: FormRecord, patch: FormPatch, now: string): (r: FormRecord)
    ensures r.id == patch.id.GetOr(f.id) && r.title == patch.title.GetOr(f.title)
    ensures r.description == patch.description.GetOr(f.description)
    ensures r.questions == patch.questions.GetOr(f.questions)
    ensures r.createdBy == patch.createdBy.GetOr(f.createdBy)
    ensures r.createdAt == patch.createdAt.GetOr(f.createdAt) && r.updatedAt == now
  {
    FormRecord(patch.id.GetOr(f.id), patch.title.GetOr(f.title),
               patch.description.GetOr(f.description), patch.questions.GetOr(f.questions),
               patch.createdBy.GetOr(f.createdBy), patch.createdAt.GetOr(f.createdAt), now)
  }

  /** With unique ids, removing the form found for `id` leaves none with that id. */
  lemma RemoveFoundForm(forms: seq<FormRecord>, id: string)
    requires UniqueIds(forms) && IndexOfForm(forms, id).Some?
    ensures forall k :: 0 <= k < |forms| - 1 ==> RemoveAt(forms, IndexOfForm(forms, id).value)[k].id != id
  {
    var i := IndexOfForm(forms, id).value;
    var r := RemoveAt(forms, i);
    forall k | 0 <= k < |r| ensures r[k].id != id {
      if k < i {
        assert r[k] == forms[k];
      } else {
        assert r[k] == forms[k + 1];
      }
    }
  }

  class FormStore {
    var forms: seq<FormRecord>
    /** The handler's own `submissions` array, which only `DeleteForm` touches. */
    var submissions: seq<Submission>

    ghost predicate Valid()
      reads this
    {
      submissions == []
    }

    constructor ()
      ensures Valid() && forms == []
    {
      forms := [];
      submissions := [];
    }

    /** `getAllForms`: the whole store, as it is. */
    function AllForms(): (r: seq<FormRecord>)
      reads this
      ensures r == forms
    {
      forms
    }

    /** `getFormById`: the first form with that id, or `null`. */
    function FormById(id: string): (r: Option<FormRecord>)
      reads this
      ensures r.Some? ==> exists i :: 0 <= i < |forms| && forms[i] == r.value && r.value.id == id &&
                                      forall k :: 0 <= k < i ==> forms[k].id != id
      ensures r.None? <==> forall k :: 0 <= k < |forms| ==> forms[k].id != id
    {
      match IndexOfForm(forms, id)
      case None => None
      case Some(i) => Some(forms[i])
    }

    /** `createForm`: one new form at the end; `stamp` stands for `Date.now()`
        and `now` for the current ISO time. */
    method CreateForm(body: FormBody, stamp: string, now: string) returns (f: FormRecord)
      requires Valid()
      modifies this
      ensures Valid()
      ensures forms == old(forms) + [f] && submissions == old(submissions)
      ensures f.id == body.id.GetOr(IdPrefix + stamp)
      ensures f.title == body.title && f.description == body.description
      ensures f.questions == body.questions && f.createdBy == body.createdBy
      ensures f.createdAt == now && f.updatedAt == now
    {
      f := FormRecord(body.id.GetOr(IdPrefix + stamp), body.title, body.description,
                      body.questions, body.createdBy, now, now);
      forms := forms + [f];
    }

    /** `updateForm`: overlays the patch on the first form with that id, or
        fails with 'Form not found' and changes nothing. */
    method UpdateForm(id: string, patch: FormPatch, now: string) returns (r: Result<FormRecord>)
      requires Valid()
      modifies this
      ensures Valid() && submissions == old(submissions)
      ensures IndexOfForm(old(forms), id).None? ==> r == Err(NotFoundError) && forms == old(forms)
      ensures IndexOfForm(old(forms), id).Some? ==>
                var i := IndexOfForm(old(forms), id).value;
                && forms == old(forms)[i := Overlay(old(forms)[i], patch, now)]
                && r == Ok(forms[i])
    {
      var index := IndexOfForm(forms, id);
      if index.None? {
        return Err(NotFoundError);
      }
      var i := index.value;
      forms := forms[i := Overlay(forms[i], patch, now)];
      r := Ok(forms[i]);
    }

    /** `deleteForm`: removes the first form with that id and filters the
        handler's own submissions by form, or fails and changes nothing. */
    method DeleteForm(id: string) returns (r: Result<()>)
      requires Valid()
      modifies this
      ensures Valid()
      ensures IndexOfForm(old(forms), id).None? ==>
                r == Err(NotFoundError) && forms == old(forms) && submissions == old(submissions)
      ensures IndexOfForm(old(forms), id).Some? ==>
                && r == Ok(())
                && forms == RemoveAt(old(forms), IndexOfForm(old(forms), id).value)
                && submissions == Filter(old(submissions), (s: Submission) => s.formId != id)
      ensures r.Ok? ==> forall k :: 0 <= k < |submissions| ==> submissions[k].formId != id
      ensures r.Ok? && UniqueIds(old(forms)) ==> forall k :: 0 <= k < |forms| ==> forms[k].id != id
    {
      var index := IndexOfForm(forms, id);
      if index.None? {
        return Err(NotFoundError);
      }
      if UniqueIds(forms) {
        RemoveFoundForm(forms, id);
      }
      forms := RemoveAt(forms, index.value);
      submissions := Filter(submissions, (s: Submission) => s.formId != id);
      r := Ok(());
    }
  }
}
