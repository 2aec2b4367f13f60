/** The submission handler (api/submissions.js): a module-level array of
    submissions behind list, list-by-form, create and delete. */
module SubmissionsApi {
  import opened Seqs
  import opened Types

  const NotFoundError := "Submission not found"
  const IdPrefix := "sub-"

  /** The body of a POST (`Omit<Submission, 'id' | 'submittedAt'>` on the
      client). An `id` in the body replaces the generated one; a
      `submittedAt` in it is replaced by the server's. */
  datatype SubmissionBody = SubmissionBody(id: Option<string>, formId: string, submittedBy: string,
                                           answers: Answers, submittedAt: Option<string>)

  /** `submissions.findIndex(sub => sub.id === id)`, with -1 as `None`. */
  function IndexOfSubmission(subs: seq<Submission>, id: string): (r: Option<nat>)
    ensures r.Some? ==> r.value < |subs| && subs[r.value].id == id
    ensures r.Some? ==> forall k :: 0 <= k < r.value ==> subs[k].id != id
    ensures r.None? <==> forall k :: 0 <= k < |subs| ==> subs[k].id != id
  {
    if subs == [] then None
    else if subs[0].id == id then Some(0)
    else match IndexOfSubmission(subs[1..], id)
      case None => None
      case Some(i) => Some(i + 1)
  }

  class SubmissionStore {
    var submissions: seq<Submission>

    constructor ()
      ensures submissions == []
    {
      submissions := [];
    }

    /** `getAllSubmissions`: the whole store, as it is. */
    function AllSubmissions(): (r: seq<Submission>)
      reads this
      ensures r == submissions
    {
      submissions
    }

    /** `getSubmissionsByFormId`: exactly the submissions of that form, in store order. */
    function ByFormId(formId: string): (r: seq<Submission>)
      reads this
      ensures IsSubsequence(r, submissions)
      ensures forall k :: 0 <= k < |r| ==> r[k].formId == formId
      ensures forall k :: 0 <= k < |submissions| && submissions[k].formId == formId ==> submissions[k] in r
      ensures forall s :: multiset(r)[s] == if s.formId == formId then multiset(submissions)[s] else 0
    {
      FilterIsSubsequence(submissions, (s: Submission) => s.formId == formId);
      FilterMultiplicity(submissions, (s: Submission) => s.formId == formId);
      Filter(submissions, (s: Submission) => s.formId == formId)
    }

    /** `createSubmission`: one new record at the end, stamped by the server. */
    method Create(body: SubmissionBody, stamp: string, now: string) returns (s: Submission)
      modifies this
      ensures submissions == old(submissions) + [s]
      ensures s.id == body.id.GetOr(IdPrefix + stamp)
      ensures s.formId == body.formId && s.submittedBy == body.submittedBy && s.answers == body.answers
      ensures s.submittedAt == now
    {
      s := Submission(body.id.GetOr(IdPrefix + stamp), body.formId, body.submittedBy, body.answers, now);
      submissions := submissions + [s];
    }

    /** `deleteSubmission`: removes the first record with that id, or fails
        with 'Submission not found' and changes nothing. */
    method Delete(id: string) returns (r: Result<()>)
      modifies this
      ensures IndexOfSubmission(old(submissions), id).None? ==>
                r == Err(NotFoundError) && submissions == old(submissions)
      ensures IndexOfSubmission(old(submissions), id).Some? ==>
                r == Ok(()) && submissions == RemoveAt(old(submissions), IndexOfSubmission(old(submissions), id).value)
    {
      var index := IndexOfSubmission(submissions, id);
      if index.None? {
        return Err(NotFoundError);
      }
      submissions := RemoveAt(submissions, index.value);
      r := Ok(());
    }
  }
}
