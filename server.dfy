/** The form and submission handlers side by side, as deployed: each keeps
    its own module-level arrays. */
module Server {
  import opened Seqs
  import opened Types
  import opened FormsApi
  import opened SubmissionsApi

  /** As written: a submission stored through the submission handler
      survives the deletion of its form, because `deleteForm` filters only
      the form handler's own (always empty) `submissions` array. */
  method DeleteFormLeavesSubmissions() returns (deleted: Result<()>, formId: string, remaining: seq<Submission>)
    ensures deleted.Ok?
    ensures |remaining| == 1 && remaining[0].formId == formId
  {
    var forms := new FormStore();
    var subs := new SubmissionStore();
    var f := forms.CreateForm(FormBody(None, "学校説明会参加申込フォーム", "", [], "admin"), "1", "t0");
    var s := subs.Create(SubmissionBody(None, f.id, "user", [], None), "2", "t1");
    formId := f.id;
    deleted := forms.DeleteForm(formId);
    remaining := subs.submissions;
  }

  /** Corrected: deleting a form also removes, from the submission handler's
      store, every submission of that form, keeping the others in order. */
  method DeleteFormWithSubmissions(forms: FormStore, subs: SubmissionStore, id: string) returns (r: Result<()>)
    requires forms.Valid()
    modifies forms, subs
    ensures forms.Valid()
    ensures IndexOfForm(old(forms.forms), id).None? ==>
              r == Err(FormsApi.NotFoundError) && forms.forms == old(forms.forms) &&
              subs.submissions == old(subs.submissions)
    ensures IndexOfForm(old(forms.forms), id).Some? ==>
              && r == Ok(())
              && forms.forms == RemoveAt(old(forms.forms), IndexOfForm(old(forms.forms), id).value)
              && subs.submissions == Filter(old(subs.submissions), (s: Submission) => s.formId != id)
    ensures r.Ok? ==> forall k :: 0 <= k < |subs.submissions| ==> subs.submissions[k].formId != id
    ensures r.Ok? ==> IsSubsequence(subs.submissions, old(subs.submissions))
  {
    r := forms.DeleteForm(id);
    if r.Ok? {
      FilterIsSubsequence(subs.submissions, (s: Submission) => s.formId != id);
      subs.submissions := Filter(subs.submissions, (s: Submission) => s.formId != id);
    }
  }
}
