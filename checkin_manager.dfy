/** The reception desk (components/CheckinManager.tsx): a scanned barcode is
    decoded, matched to a submission, checked against the check-ins already
    listed, and sent to the check-in service; the list then follows the
    service through deletes and note edits. The service's client object is
    not defined anywhere in the application, so it is modelled by the
    check-in handler itself: each call is a call on a `CheckinStore`, and a
    flag says whether the request got through at all. */
module CheckinManager {
  import opened Seqs
  import opened Records
  import opened Types
  import opened CheckinApi

  const InvalidBarcodeMessage := "無効なバーコードです"
  const NoSubmissionMessage := "対応する申込データが見つかりません"
  const AlreadyCheckedInMessage := "既に受付済みです"
  const ScanFailedMessage := "受付処理に失敗しました"
  const LoadFailedMessage := "受付データの読み込みに失敗しました"
  const DeleteFailedMessage := "削除に失敗しました"
  const DeletedMessage := "受付記録を削除しました"
  const UpdateFailedMessage := "更新に失敗しました"
  const UpdatedMessage := "メモを更新しました"
  const UnknownName := "名前不明"
  const CheckedInSuffix := "さんの受付が完了しました"

  /** The answer keys that hold a parent's name and a child's name, in the
      order they are tried (the school templates' question ids). */
  const ParentKeys: seq<string> := ["q1", "q10", "q16"]
  const ChildKeys: seq<string> := ["q2", "q17"]

  /** What `JSON.parse` makes of a barcode: `null`, or a value whose
      `submissionId` is a string or is absent (`None`, also standing for a
      non-string value, which matches no submission id). */
  datatype Payload = NullPayload | Parsed(submissionId: Option<string>)

  /** The scanned submission with its check-in: the new one, or the one
      already listed (`existing`). */
  datatype ScanView = ScanView(submission: Submission, checkin: Checkin, existing: bool)

  /** `answers[keys[0]] || answers[keys[1]] || ...` when one of them is truthy. */
  function FirstTruthy(answers: Answers, keys: seq<string>): (r: Option<Answer>)
    ensures r.Some? ==> exists k :: 0 <= k < |keys| && Lookup(answers, keys[k]) == r &&
                                    Truthy(r) && forall j :: 0 <= j < k ==> !Truthy(Lookup(answers, keys[j]))
    ensures r.None? <==> forall k :: 0 <= k < |keys| ==> !Truthy(Lookup(answers, keys[k]))
  {
    if keys == [] then None
    else if Truthy(Lookup(answers, keys[0])) then Lookup(answers, keys[0])
    else
      var r := FirstTruthy(answers, keys[1..]);
      assert r.Some? ==> exists k :: 0 <= k < |keys| && Lookup(answers, keys[k]) == r &&
                                     Truthy(r) && forall j :: 0 <= j < k ==> !Truthy(Lookup(answers, keys[j])) by {
        if r.Some? {
          var k :| 0 <= k < |keys[1..]| && Lookup(answers, keys[1..][k]) == r && Truthy(r) &&
                   forall j :: 0 <= j < k ==> !Truthy(Lookup(answers, keys[1..][j]));
          assert Lookup(answers, keys[k + 1]) == r;
          forall j | 0 <= j < k + 1 ensures !Truthy(Lookup(answers, keys[j])) {
            if j > 0 {
              assert keys[j] == keys[1..][j - 1];
            }
          }
        }
      }
      r
  }

  function ParentName(s: Submission): Option<Answer> {
    FirstTruthy(s.answers, ParentKeys)
  }

  function ChildName(s: Submission): Option<Answer> {
    FirstTruthy(s.answers, ChildKeys)
  }

  /** `getParticipantName`: "parent（child）" when both names are given, the
      one given otherwise, and '名前不明' when neither is. */
  function ParticipantName(s: Submission): (r: string)
    ensures ParentName(s).Some? && ChildName(s).Some? ==>
              r == DisplayText(ParentName(s).value) + "（" + DisplayText(ChildName(s).value) + "）"
    ensures ParentName(s).Some? && ChildName(s).None? ==> r == DisplayText(ParentName(s).value)
    ensures ParentName(s).None? && ChildName(s).Some? ==> r == DisplayText(ChildName(s).value)
    ensures ParentName(s).None? && ChildName(s).None? ==> r == UnknownName
  {
    match (ParentName(s), ChildName(s))
    case (Some(p), Some(c)) => DisplayText(p) + "（" + DisplayText(c) + "）"
    case (Some(p), None) => DisplayText(p)
    case (None, Some(c)) => DisplayText(c)
    case (None, None) => UnknownName
  }

  /** The name comes from the first truthy key of each group: a later key is
      read only when the earlier ones are empty. */
  lemma ParentNameTakesFirstKey(s: Submission)
    ensures Truthy(Lookup(s.answers, "q1")) ==> ParentName(s) == Lookup(s.answers, "q1")
    ensures !Truthy(Lookup(s.answers, "q1")) && Truthy(Lookup(s.answers, "q10")) ==>
              ParentName(s) == Lookup(s.answers, "q10")
    ensures !Truthy(Lookup(s.answers, "q1")) && !Truthy(Lookup(s.answers, "q10")) ==>
              ParentName(s) == (if Truthy(Lookup(s.answers, "q16")) then Lookup(s.answers, "q16") else None)
    ensures Truthy(Lookup(s.answers, "q2")) ==> ChildName(s) == Lookup(s.answers, "q2")
    ensures !Truthy(Lookup(s.answers, "q2")) ==>
              ChildName(s) == (if Truthy(Lookup(s.answers, "q17")) then Lookup(s.answers, "q17") else None)
  {
    var a := s.answers;
    assert ParentKeys[1..] == ["q10", "q16"] && ["q10", "q16"][1..] == ["q16"] && ["q16"][1..] == [];
    assert FirstTruthy(a, ["q16"]) == if Truthy(Lookup(a, "q16")) then Lookup(a, "q16") else None;
    assert FirstTruthy(a, ["q10", "q16"]) ==
           if Truthy(Lookup(a, "q10")) then Lookup(a, "q10") else FirstTruthy(a, ["q16"]);
    assert ChildKeys[1..] == ["q17"] && ["q17"][1..] == [];
    assert FirstTruthy(a, ["q17"]) == if Truthy(Lookup(a, "q17")) then Lookup(a, "q17") else None;
  }

  /** `c => c.id !== id`. */
  function IdIsNot(id: string): Checkin -> bool {
    (c: Checkin) => c.id != id
  }

  /** `prev.map(c => c.id === id ? updated : c)`. */
  function ReplaceById(cs: seq<Checkin>, id: string, updated: Checkin): (r: seq<Checkin>)
    ensures |r| == |cs|
    ensures forall k :: 0 <= k < |cs| ==> r[k] == if cs[k].id == id then updated else cs[k]
  {
    seq(|cs|, k requires 0 <= k < |cs| => if cs[k].id == id then updated else cs[k])
  }

  class Manager {
    var checkins: seq<Checkin>
    var error: string
    var success: string
    var scanned: Option<ScanView>
    var loading: bool
    var scanning: bool
    var editing: Option<Checkin>
    var editNotes: string

    /** Every listed check-in is one the service holds. */
    ghost predicate Synced(server: CheckinStore)
      reads this, server
    {
      forall k :: 0 <= k < |checkins| ==> checkins[k] in server.checkins
    }

    constructor ()
      ensures checkins == [] && error == "" && success == "" && scanned == None
      ensures !loading && !scanning && editing == None && editNotes == ""
    {
      checkins := [];
      error := "";
      success := "";
      scanned := None;
      loading := false;
      scanning := false;
      editing := None;
      editNotes := "";
    }

    /** `loadCheckins`, run when a form is selected: the list becomes the
        service's check-ins of that form on today's date. */
    method LoadCheckins(server: CheckinStore, formId: string, today: string, dayOf: string -> string,
                        delivered: bool)
      modifies this
      ensures formId == "" ==> checkins == old(checkins) && error == old(error) && loading == old(loading)
      ensures formId != "" && delivered ==>
                checkins == server.Query(formId, today, dayOf) && error == old(error) && !loading
      ensures formId != "" && !delivered ==>
                checkins == old(checkins) && error == LoadFailedMessage && !loading
      ensures formId != "" && delivered ==> Synced(server)
      ensures success == old(success) && scanned == old(scanned) && scanning == old(scanning)
      ensures editing == old(editing) && editNotes == old(editNotes)
    {
      if formId == "" {
        return;
      }
      if delivered {
        checkins := server.Query(formId, today, dayOf);
      } else {
        error := LoadFailedMessage;
      }
      loading := false;
    }

    /** The create call of `handleScan` for a submission not yet listed,
        under the name derived for it, and what the list does with the
        service's answer. */
    method CheckIn(sub: Submission, name: string, server: CheckinStore, delivered: bool, stamp: string, now: string)
      requires server.Valid() && Synced(server)
      modifies this, server
      ensures server.Valid() && Synced(server)
      ensures loading == old(loading) && scanning == old(scanning)
      ensures editing == old(editing) && editNotes == old(editNotes)
      ensures if !delivered then
                && error == ScanFailedMessage && checkins == old(checkins)
                && server.checkins == old(server.checkins)
                && success == old(success) && scanned == old(scanned)
              else if sub.id == "" || sub.formId == "" then
                && error == ScanFailedMessage && checkins == old(checkins)
                && server.checkins == old(server.checkins)
                && success == old(success) && scanned == old(scanned)
              else if FindBySubmission(old(server.checkins), sub.id).Some? then
                && error == AlreadyCheckedInMessage && checkins == old(checkins)
                && server.checkins == old(server.checkins)
                && success == old(success) && scanned == old(scanned)
              else
                && |server.checkins| == |old(server.checkins)| + 1
                && var c := server.checkins[|old(server.checkins)|];
                && server.checkins == old(server.checkins) + [c]
                && checkins == old(checkins) + [c]
                && c.submissionId == sub.id && c.formId == sub.formId
                && c.participantName == (if name == "" then DefaultName else name)
                && c.checkinTime == now && c.notes == ""
                && error == old(error) && success == name + CheckedInSuffix
                && scanned == Some(ScanView(sub, c, false))
    {
      if !delivered {
        error := ScanFailedMessage;
        return;
      }
      var outcome := server.Create(CheckinRequest(sub.id, sub.formId, name, now, ""), stamp, now);
      match outcome {
        case Created(c) =>
          assert server.checkins[|old(server.checkins)|] == c;
          checkins := checkins + [c];
          success := name + CheckedInSuffix;
          scanned := Some(ScanView(sub, c, false));
        case AlreadyCheckedIn(_) =>
          error := AlreadyCheckedInMessage;
        case MissingFields =>
          error := ScanFailedMessage;
      }
    }

    /** `handleScan`. `decode` stands for `JSON.parse`, `now` for the scan
        time and `stamp` for the service's `Date.now()`. */
    method HandleScan(barcode: string, decode: string -> Option<Payload>, submissions: seq<Submission>,
                      server: CheckinStore, delivered: bool, stamp: string, now: string)
      requires server.Valid() && Synced(server)
      modifies this, server
      ensures server.Valid() && Synced(server)
      ensures !loading && !scanning
      ensures editing == old(editing) && editNotes == old(editNotes)
      // an unreadable barcode: no lookup, no call
      ensures decode(barcode).None? ==>
                && error == InvalidBarcodeMessage && checkins == old(checkins)
                && server.checkins == old(server.checkins)
                && success == old(success) && scanned == old(scanned)
      // `null` decodes, but reading its `submissionId` throws
      ensures decode(barcode) == Some(NullPayload) ==>
                && error == ScanFailedMessage && checkins == old(checkins)
                && server.checkins == old(server.checkins)
                && success == old(success) && scanned == old(scanned)
      // no submission with that id: no call
      ensures decode(barcode).Some? && decode(barcode).value.Parsed? &&
              FindByPayload(submissions, decode(barcode).value).None? ==>
                && error == NoSubmissionMessage && checkins == old(checkins)
                && server.checkins == old(server.checkins)
                && success == old(success) && scanned == old(scanned)
      // already on the list: the listed record is shown and no call is made
      ensures decode(barcode).Some? && decode(barcode).value.Parsed? &&
              FindByPayload(submissions, decode(barcode).value).Some? &&
              FindBySubmission(old(checkins), FindByPayload(submissions, decode(barcode).value).value.id).Some? ==>
                var sub := FindByPayload(submissions, decode(barcode).value).value;
                && error == AlreadyCheckedInMessage && checkins == old(checkins)
                && server.checkins == old(server.checkins) && success == old(success)
                && scanned == Some(ScanView(sub, FindBySubmission(old(checkins), sub.id).value, true))
      // otherwise the request the service receives, and what the list does with the answer
      ensures decode(barcode).Some? && decode(barcode).value.Parsed? &&
              FindByPayload(submissions, decode(barcode).value).Some? &&
              FindBySubmission(old(checkins), FindByPayload(submissions, decode(barcode).value).value.id).None? ==>
                var sub := FindByPayload(submissions, decode(barcode).value).value;
                var name := ParticipantName(sub);
                if !delivered then
                  && error == ScanFailedMessage && checkins == old(checkins)
                  && server.checkins == old(server.checkins)
                  && success == old(success) && scanned == old(scanned)
                else if sub.id == "" || sub.formId == "" then
                  && error == ScanFailedMessage && checkins == old(checkins)
                  && server.checkins == old(server.checkins)
                  && success == old(success) && scanned == old(scanned)
                else if FindBySubmission(old(server.checkins), sub.id).Some? then
                  && error == AlreadyCheckedInMessage && checkins == old(checkins)
                  && server.checkins == old(server.checkins)
                  && success == old(success) && scanned == old(scanned)
                else
                  && |server.checkins| == |old(server.checkins)| + 1
                  && var c := server.checkins[|old(server.checkins)|];
                  && server.checkins == old(server.checkins) + [c]
                  && checkins == old(checkins) + [c]
                  && c.submissionId == sub.id && c.formId == sub.formId
                  && c.participantName == (if name == "" then DefaultName else name)
                  && c.checkinTime == now && c.notes == ""
                  && error == "" && success == name + CheckedInSuffix
                  && scanned == Some(ScanView(sub, c, false))
    {
      loading := true;
      error := "";
      var parsed := decode(barcode);
      if parsed.None? {
        error := InvalidBarcodeMessage;
      } else if parsed.value.NullPayload? {
        error := ScanFailedMessage;
      } else {
        var found := FindByPayload(submissions, parsed.value);
        if found.None? {
          error := NoSubmissionMessage;
        } else {
          var sub := found.value;
          var listed := FindBySubmission(checkins, sub.id);
          if listed.Some? {
            error := AlreadyCheckedInMessage;
            scanned := Some(ScanView(sub, listed.value, true));
          } else {
            CheckIn(sub, ParticipantName(sub), server, delivered, stamp, now);
          }
        }
      }
      loading := false;
      scanning := false;
    }

    /** `handleDeleteCheckin`: nothing happens unless confirmed; after the
        service deletes the record, every listed record with that id goes. */
    method HandleDelete(checkinId: string, confirmed: bool, server: CheckinStore, delivered: bool)
      requires server.Valid() && Synced(server)
      modifies this, server
      ensures server.Valid() && Synced(server)
      ensures !confirmed ==> checkins == old(checkins) && server.checkins == old(server.checkins) &&
                             error == old(error) && success == old(success)
      ensures confirmed && (!delivered || IndexOfId(old(server.checkins), checkinId).None?) ==>
                && checkins == old(checkins) && server.checkins == old(server.checkins)
                && error == DeleteFailedMessage && success == old(success)
      ensures confirmed && delivered && IndexOfId(old(server.checkins), checkinId).Some? ==>
                && server.checkins == RemoveAt(old(server.checkins), IndexOfId(old(server.checkins), checkinId).value)
                && checkins == Filter(old(checkins), IdIsNot(checkinId))
                && error == old(error) && success == DeletedMessage
      ensures forall k :: 0 <= k < |checkins| ==> checkins[k] in old(checkins)
      ensures scanned == old(scanned) && loading == old(loading) && scanning == old(scanning)
      ensures editing == old(editing) && editNotes == old(editNotes)
    {
      if !confirmed {
        return;
      }
      if !delivered {
        error := DeleteFailedMessage;
        return;
      }
      var r := server.Delete(checkinId);
      if r.Err? {
        error := DeleteFailedMessage;
        return;
      }
      var i := IndexOfId(old(server.checkins), checkinId).value;
      checkins := Filter(checkins, IdIsNot(checkinId));
      forall k | 0 <= k < |checkins| ensures checkins[k] in server.checkins {
        var x := checkins[k];
        assert x in old(checkins) && x.id != checkinId;
        RemoveAtKeepsOthers(old(server.checkins), i, x);
      }
      success := DeletedMessage;
    }

    /** The service call of `handleUpdateCheckin` for check-in `id`, and what
        the list and the dialog do with its answer. */
    method SaveNotes(id: string, notes: string, server: CheckinStore, now: string)
      requires server.Valid() && Synced(server)
      modifies this, server
      ensures server.Valid() && Synced(server)
      ensures IndexOfId(old(server.checkins), id).None? ==>
                && checkins == old(checkins) && server.checkins == old(server.checkins)
                && error == UpdateFailedMessage && success == old(success)
                && editing == old(editing) && editNotes == old(editNotes)
      ensures IndexOfId(old(server.checkins), id).Some? ==>
                var i := IndexOfId(old(server.checkins), id).value;
                var was := old(server.checkins)[i];
                var updated := was.(notes := if notes == "" then was.notes else notes, updatedAt := Some(now));
                && server.checkins == old(server.checkins)[i := updated]
                && checkins == ReplaceById(old(checkins), id, updated)
                && editing == None && editNotes == "" && success == UpdatedMessage && error == old(error)
      ensures scanned == old(scanned) && loading == old(loading) && scanning == old(scanning)
    {
      var r := server.UpdateNotes(id, notes, now);
      if r.Err? {
        error := UpdateFailedMessage;
        return;
      }
      var i := IndexOfId(old(server.checkins), id).value;
      checkins := ReplaceById(checkins, id, r.value);
      forall k | 0 <= k < |checkins| ensures checkins[k] in server.checkins {
        if old(checkins)[k].id != id {
          UpdateKeepsOthers(old(server.checkins), i, r.value, old(checkins)[k]);
        } else {
          assert server.checkins[i] == r.value;
        }
      }
      editing := None;
      editNotes := "";
      success := UpdatedMessage;
    }

    /** `handleEditCheckin`: the notes being edited go to the service, and
        every listed record with that id becomes the record it returns. */
    method HandleEdit(server: CheckinStore, now: string, delivered: bool)
      requires server.Valid() && Synced(server)
      modifies this, server
      ensures server.Valid() && Synced(server)
      ensures old(editing).None? ==> checkins == old(checkins) && server.checkins == old(server.checkins) &&
                                     error == old(error) && success == old(success) && editing == None
      ensures old(editing).Some? && (!delivered || IndexOfId(old(server.checkins), old(editing).value.id).None?) ==>
                && checkins == old(checkins) && server.checkins == old(server.checkins)
                && error == UpdateFailedMessage && success == old(success)
                && editing == old(editing) && editNotes == old(editNotes)
      ensures old(editing).Some? && delivered && IndexOfId(old(server.checkins), old(editing).value.id).Some? ==>
                var id := old(editing).value.id;
                var i := IndexOfId(old(server.checkins), id).value;
                var was := old(server.checkins)[i];
                var updated := was.(notes := if old(editNotes) == "" then was.notes else old(editNotes),
                                    updatedAt := Some(now));
                && server.checkins == old(server.checkins)[i := updated]
                && checkins == ReplaceById(old(checkins), id, updated)
                && editing == None && editNotes == "" && success == UpdatedMessage && error == old(error)
      ensures scanned == old(scanned) && loading == old(loading) && scanning == old(scanning)
    {
      if editing.None? {
        return;
      }
      var id := editing.value.id;
      if !delivered {
        error := UpdateFailedMessage;
        return;
      }
      SaveNotes(id, editNotes, server, now);
    }
  }

  /** `submissions.find(sub => sub.id === parsedData.submissionId)`. */
  function FindByPayload(submissions: seq<Submission>, p: Payload): (r: Option<Submission>)
    requires p.Parsed?
    ensures r.Some? ==> r.value in submissions && p.submissionId == Some(r.value.id)
    ensures r.None? <==> p.submissionId.None? || forall k :: 0 <= k < |submissions| ==> Some(submissions[k].id) != p.submissionId
    ensures r.Some? ==> exists k :: 0 <= k < |submissions| && submissions[k] == r.value &&
                                    forall j :: 0 <= j < k ==> Some(submissions[j].id) != p.submissionId
  {
    match p.submissionId
    case None => None
    case Some(id) => FindSubmission(submissions, id)
  }

  /** Scanning the same barcode twice: once the first scan has checked the
      submission in, the second is answered from the list, shows the record
      the first one stored and does not reach the service. */
  method ScanTwice(m: Manager, barcode: string, decode: string -> Option<Payload>, submissions: seq<Submission>,
                   server: CheckinStore, stamp1: string, stamp2: string, now1: string, now2: string)
    requires server.Valid() && m.Synced(server)
    requires m.success == ""
    modifies m, server
    ensures server.Valid() && m.Synced(server)
    ensures m.success != "" ==>
              && m.error == AlreadyCheckedInMessage
              && |m.checkins| == |old(m.checkins)| + 1
              && server.checkins == old(server.checkins) + [m.checkins[|old(m.checkins)|]]
              && m.scanned.Some? && m.scanned.value.existing
              && m.scanned.value.checkin == m.checkins[|old(m.checkins)|]
  {
    m.HandleScan(barcode, decode, submissions, server, true, stamp1, now1);
    if m.success != "" {
      ghost var sub := FindByPayload(submissions, decode(barcode).value).value;
      assert m.checkins[|m.checkins| - 1].submissionId == sub.id;
      assert FindBySubmission(m.checkins, sub.id).Some?;
      m.HandleScan(barcode, decode, submissions, server, true, stamp2, now2);
    }
  }
}
