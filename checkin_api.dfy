/** The check-in handler (api/checkin.js): a module-level array of check-in
    records behind GET (filter), POST (create, at most one record per
    submission), PUT (update the notes) and DELETE. HTTP plumbing is left
    out: each request becomes a method, each response a returned value. */
module CheckinApi {
  import opened Seqs
  import opened Types

  const MissingFieldsError := "Missing required fields"
  const AlreadyCheckedInError := "Already checked in"
  const NotFoundError := "Checkin not found"
  const DefaultName := "Unknown"
  const IdPrefix := "checkin-"

  /** The body of a POST. An empty string stands for a field that is missing
      or falsy, which the handler treats alike. */
  datatype CheckinRequest = CheckinRequest(submissionId: string, formId: string,
                                           participantName: string, checkinTime: string,
                                           notes: string)

  /** POST answers 400, 409 carrying the record already stored, or 201 carrying the new one. */
  datatype CreateOutcome = MissingFields | AlreadyCheckedIn(existing: Checkin) | Created(checkin: Checkin)

  /** No two records are check-ins of the same submission. */
  ghost predicate UniqueSubmissions(cs: seq<Checkin>) {
    forall i, j :: 0 <= i < j < |cs| ==> cs[i].submissionId != cs[j].submissionId
  }

  /** `checkins.findIndex(c => c.id === id)`, with -1 as `None`. */
  function IndexOfId(cs: seq<Checkin>, id: string): (r: Option<nat>)
    ensures r.Some? ==> r.value < |cs| && cs[r.value].id == id
    ensures r.Some? ==> forall k :: 0 <= k < r.value ==> cs[k].id != id
    ensures r.None? <==> forall k :: 0 <= k < |cs| ==> cs[k].id != id
  {
    if cs == [] then None
    else if cs[0].id == id then Some(0)
    else match IndexOfId(cs[1..], id)
      case None => None
      case Some(i) => Some(i + 1)
  }

  /** `checkins.find(c => c.submissionId === submissionId)`. */
  function FindBySubmission(cs: seq<Checkin>, submissionId: string): (r: Option<Checkin>)
    ensures r.Some? ==> r.value in cs && r.value.submissionId == submissionId
    ensures r.None? <==> forall k :: 0 <= k < |cs| ==> cs[k].submissionId != submissionId
  {
    if cs == [] then None
    else if cs[0].submissionId == submissionId then Some(cs[0])
    else FindBySubmission(cs[1..], submissionId)
  }

  /** The GET filter: `formId` and `date` are empty when the query leaves them
      out; `dayOf(t)` stands for `new Date(t).toDateString()`. */
  predicate Matches(c: Checkin, formId: string, date: string, dayOf: string -> string) {
    && (formId != "" ==> c.formId == formId)
    && (date != "" ==> dayOf(c.checkinTime) == dayOf(date))
  }

  function FormIs(formId: string): Checkin -> bool {
    (c: Checkin) => c.formId == formId
  }

  function SameDay(date: string, dayOf: string -> string): Checkin -> bool {
    (c: Checkin) => dayOf(c.checkinTime) == dayOf(date)
  }

  /** The two GET filters in turn keep every copy of a matching record and none of another. */
  lemma QueryKeepsCopies(checkins: seq<Checkin>, formId: string, date: string, dayOf: string -> string)
    ensures var byForm := if formId != "" then Filter(checkins, FormIs(formId)) else checkins;
            var byDate := if date != "" then Filter(byForm, SameDay(date, dayOf)) else byForm;
            forall c :: multiset(byDate)[c] == if Matches(c, formId, date, dayOf) then multiset(checkins)[c] else 0
  {
    var byForm := if formId != "" then Filter(checkins, FormIs(formId)) else checkins;
    FilterMultiplicity(checkins, FormIs(formId));
    FilterMultiplicity(byForm, SameDay(date, dayOf));
  }

  /** Storing a record for a submission that has none keeps the submissions unique. */
  lemma AppendKeepsUnique(cs: seq<Checkin>, c: Checkin)
    requires UniqueSubmissions(cs)
    requires FindBySubmission(cs, c.submissionId).None?
    ensures UniqueSubmissions(cs + [c])
  {
  }

  /** Removing a record keeps the submissions unique. */
  lemma RemoveKeepsUnique(cs: seq<Checkin>, i: nat)
    requires UniqueSubmissions(cs) && i < |cs|
    ensures UniqueSubmissions(RemoveAt(cs, i))
  {
    var r := RemoveAt(cs, i);
    forall a, b | 0 <= a < b < |r| ensures r[a].submissionId != r[b].submissionId {
      var a' := if a < i then a else a + 1;
      var b' := if b < i then b else b + 1;
      assert r[a] == cs[a'] && r[b] == cs[b'];
    }
  }

  class CheckinStore {
    var checkins: seq<Checkin>

    ghost predicate Valid()
      reads this
    {
      UniqueSubmissions(checkins)
    }

    constructor ()
      ensures Valid() && checkins == []
    {
      checkins := [];
    }

    /** GET: the stored records that match the query, in store order. */
    function Query(formId: string, date: string, dayOf: string -> string): (r: seq<Checkin>)
      reads this
      ensures IsSubsequence(r, checkins)
      ensures forall k :: 0 <= k < |r| ==> r[k] in checkins && Matches(r[k], formId, date, dayOf)
      ensures forall k :: 0 <= k < |checkins| && Matches(checkins[k], formId, date, dayOf) ==> checkins[k] in r
      ensures forall c :: multiset(r)[c] == if Matches(c, formId, date, dayOf) then multiset(checkins)[c] else 0
    {
      var byForm := if formId != "" then Filter(checkins, FormIs(formId)) else checkins;
      var byDate := if date != "" then Filter(byForm, SameDay(date, dayOf)) else byForm;
      assert IsSubsequence(byDate, checkins) by {
        SubsequenceReflexive(checkins);
        SubsequenceReflexive(byForm);
        FilterIsSubsequence(checkins, FormIs(formId));
        FilterIsSubsequence(byForm, SameDay(date, dayOf));
        SubsequenceTransitive(byDate, byForm, checkins);
      }
      QueryKeepsCopies(checkins, formId, date, dayOf);
      byDate
    }

    /** POST: a record needs a submission and a form; a submission that already
        has one gets it back and nothing is stored; otherwise exactly one new
        record goes at the end, with the missing fields defaulted. `stamp`
        stands for `Date.now()` and `now` for the current ISO time. */
    method Create(req: CheckinRequest, stamp: string, now: string) returns (r: CreateOutcome)
      requires Valid()
      modifies this
      ensures Valid()
      ensures (req.submissionId == "" || req.formId == "") ==>
                r == MissingFields && checkins == old(checkins)
      ensures req.submissionId != "" && req.formId != "" &&
              FindBySubmission(old(checkins), req.submissionId).Some? ==>
                r == AlreadyCheckedIn(FindBySubmission(old(checkins), req.submissionId).value) &&
                checkins == old(checkins)
      ensures req.submissionId != "" && req.formId != "" &&
              FindBySubmission(old(checkins), req.submissionId).None? ==>
                r.Created? && checkins == old(checkins) + [r.checkin]
      ensures r.Created? ==>
                && r.checkin.id == IdPrefix + stamp
                && r.checkin.submissionId == req.submissionId
                && r.checkin.formId == req.formId
                && r.checkin.participantName == (if req.participantName == "" then DefaultName else req.participantName)
                && r.checkin.checkinTime == (if req.checkinTime == "" then now else req.checkinTime)
                && r.checkin.notes == req.notes
                && r.checkin.createdAt == now
                && r.checkin.updatedAt == None
    {
      if req.submissionId == "" || req.formId == "" {
        return MissingFields;
      }
      var existing := FindBySubmission(checkins, req.submissionId);
      if existing.Some? {
        return AlreadyCheckedIn(existing.value);
      }
      var c := Checkin(IdPrefix + stamp, req.submissionId, req.formId,
                       if req.participantName == "" then DefaultName else req.participantName,
                       if req.checkinTime == "" then now else req.checkinTime,
                       req.notes, now, None);
      AppendKeepsUnique(checkins, c);
      checkins := checkins + [c];
      r := Created(c);
    }

    /** PUT: the first record with that id gets the new notes (kept as they
        were when the new ones are empty) and an `updatedAt` stamp; every other
        field and every other record stays. */
    method UpdateNotes(id: string, notes: string, now: string) returns (r: Result<Checkin>)
      requires Valid()
      modifies this
      ensures Valid()
      ensures IndexOfId(old(checkins), id).None? ==>
                r == Err(NotFoundError) && checkins == old(checkins)
      ensures IndexOfId(old(checkins), id).Some? ==>
                var i := IndexOfId(old(checkins), id).value;
                var was := old(checkins)[i];
                && checkins == old(checkins)[i := was.(notes := if notes == "" then was.notes else notes,
                                                        updatedAt := Some(now))]
                && r == Ok(checkins[i])
    {
      var index := IndexOfId(checkins, id);
      if index.None? {
        return Err(NotFoundError);
      }
      var i := index.value;
      var was := checkins[i];
      checkins := checkins[i := was.(notes := if notes == "" then was.notes else notes,
                                     updatedAt := Some(now))];
      r := Ok(checkins[i]);
    }

    /** DELETE: the first record with that id is removed and returned; the
        others keep their order. */
    method Delete(id: string) returns (r: Result<Checkin>)
      requires Valid()
      modifies this
      ensures Valid()
      ensures IndexOfId(old(checkins), id).None? ==>
                r == Err(NotFoundError) && checkins == old(checkins)
      ensures IndexOfId(old(checkins), id).Some? ==>
                var i := IndexOfId(old(checkins), id).value;
                r == Ok(old(checkins)[i]) && checkins == RemoveAt(old(checkins), i)
    {
      var index := IndexOfId(checkins, id);
      if index.None? {
        return Err(NotFoundError);
      }
      var i := index.value;
      r := Ok(checkins[i]);
      RemoveKeepsUnique(checkins, i);
      checkins := RemoveAt(checkins, i);
    }
  }

  /** Two POSTs for one submission: the second is refused with the record the
      first one stored, and the store holds one record for it. */
  method CheckInTwice(store: CheckinStore, req: CheckinRequest, stamp1: string, stamp2: string, now: string)
      returns (first: CreateOutcome, second: CreateOutcome)
    requires store.Valid()
    requires req.submissionId != "" && req.formId != ""
    requires FindBySubmission(store.checkins, req.submissionId).None?
    modifies store
    ensures store.Valid()
    ensures first.Created? && second == AlreadyCheckedIn(first.checkin)
    ensures store.checkins == old(store.checkins) + [first.checkin]
  {
    first := store.Create(req, stamp1, now);
    assert FindBySubmission(store.checkins, req.submissionId) == Some(first.checkin) by {
      assert UniqueSubmissions(store.checkins);
      var k := |store.checkins| - 1;
      assert store.checkins[k] == first.checkin;
    }
    second := store.Create(req, stamp2, now);
  }
}
