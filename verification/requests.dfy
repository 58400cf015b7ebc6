/** The pure list logic of the request collection (App.tsx, addRequest and
    updateRequestStatus): how the in-memory list changes, and the partial
    row sent to the store for a status update. */
module Requests {
  import opened Wrappers
  import opened Types
  import opened Mapper

  /** How many records of `requests` carry `id`. */
  function CountId(requests: seq<MarketingRequest>, id: string): nat {
    if |requests| == 0 then 0
    else (if requests[0].id == id then 1 else 0) + CountId(requests[1..], id)
  }

  /** addRequest: the new request goes in front of the list, whatever its id.
      The old list is the unchanged tail, and a repeated id is kept twice. */
  function AddRequest(requests: seq<MarketingRequest>, newRequest: MarketingRequest): (r: seq<MarketingRequest>)
    ensures |r| == |requests| + 1
    ensures r[0] == newRequest && r[1..] == requests
    ensures CountId(r, newRequest.id) == CountId(requests, newRequest.id) + 1
    ensures forall id :: id != newRequest.id ==> CountId(r, id) == CountId(requests, id)
  {
    var r := [newRequest] + requests;
    assert r[1..] == requests;
    r
  }

  /** No id-uniqueness check: adding a request whose id is already present
      leaves two records with that id. */
  lemma AddRequestKeepsDuplicateIds(requests: seq<MarketingRequest>, newRequest: MarketingRequest)
    requires exists i :: 0 <= i < |requests| && requests[i].id == newRequest.id
    ensures CountId(AddRequest(requests, newRequest), newRequest.id) >= 2
  {
    var i :| 0 <= i < |requests| && requests[i].id == newRequest.id;
    CountIdPositive(requests, newRequest.id, i);
  }

  lemma {:induction false} CountIdPositive(requests: seq<MarketingRequest>, id: string, i: int)
    requires 0 <= i < |requests| && requests[i].id == id
    ensures CountId(requests, id) >= 1
  {
    if i > 0 {
      CountIdPositive(requests[1..], id, i - 1);
    }
  }

  /** The partial record updateRequestStatus hands to mapToDb,
      `{status, ...additionalData, updatedAt: now}`. */
  function UpdatePatch(status: RequestStatus, additionalData: Patch, now: string): (p: Patch)
    ensures p.status == Some(additionalData.status.GetOr(status))
    ensures p.updatedAt == Some(now)
    ensures p.(status := additionalData.status, updatedAt := additionalData.updatedAt) == additionalData
  {
    Overlay(Overlay(EmptyPatch.(status := Some(status)), additionalData), EmptyPatch.(updatedAt := Some(now)))
  }

  /** The new value of a matching record, `{...req, status, ...additionalData, updatedAt: now}`:
      `updatedAt` is always `now`; the status is `additionalData`'s if it
      defines one, else `status`; every other property is `additionalData`'s
      if defined there and the old one otherwise. */
  function UpdateRecord(req: MarketingRequest, status: RequestStatus, additionalData: Patch, now: string): (r: MarketingRequest)
    ensures r.updatedAt == now
    ensures r.status == additionalData.status.GetOr(status)
    ensures r.id == additionalData.id.GetOr(req.id)
    ensures r.createdAt == additionalData.createdAt.GetOr(req.createdAt)
    ensures r.rtmId == additionalData.rtmId.GetOr(req.rtmId)
    ensures r.rtmName == additionalData.rtmName.GetOr(req.rtmName)
    ensures r.regionId == additionalData.regionId.GetOr(req.regionId)
    ensures r.branches == additionalData.branches.GetOr(req.branches)
    ensures r.approvedAmount == (if additionalData.approvedAmount.Some? then additionalData.approvedAmount else req.approvedAmount)
    ensures r.tmComment == (if additionalData.tmComment.Some? then additionalData.tmComment else req.tmComment)
  {
    Apply(Apply(Apply(req, EmptyPatch.(status := Some(status))), additionalData), EmptyPatch.(updatedAt := Some(now)))
  }

  /** The local rewrite and the patch sent to the store are the same overlay:
      the record is rewritten by exactly the partial record mapToDb is given. */
  lemma UpdateRecordIsPatch(req: MarketingRequest, status: RequestStatus, additionalData: Patch, now: string)
    ensures UpdateRecord(req, status, additionalData, now) == Apply(req, UpdatePatch(status, additionalData, now))
  {
    ApplyOverlay(req, EmptyPatch.(status := Some(status)), additionalData);
    ApplyOverlay(req, Overlay(EmptyPatch.(status := Some(status)), additionalData), EmptyPatch.(updatedAt := Some(now)));
  }

  /** updateRequestStatus: list length and order are kept, each record with
      `id == requestId` is rewritten by UpdateRecord, every other record is unchanged. */
  function UpdateRequestStatus(requests: seq<MarketingRequest>, requestId: string, status: RequestStatus,
                               additionalData: Patch, now: string): (r: seq<MarketingRequest>)
    ensures |r| == |requests|
    ensures forall i :: 0 <= i < |requests| && requests[i].id != requestId ==> r[i] == requests[i]
    ensures forall i :: 0 <= i < |requests| && requests[i].id == requestId ==>
      r[i] == UpdateRecord(requests[i], status, additionalData, now)
  {
    if |requests| == 0 then []
    else
      var head := if requests[0].id == requestId then UpdateRecord(requests[0], status, additionalData, now) else requests[0];
      [head] + UpdateRequestStatus(requests[1..], requestId, status, additionalData, now)
  }

  /** An unknown id leaves the list as it was. */
  lemma UnknownIdLeavesListUnchanged(requests: seq<MarketingRequest>, requestId: string, status: RequestStatus,
                                     additionalData: Patch, now: string)
    requires forall i :: 0 <= i < |requests| ==> requests[i].id != requestId
    ensures UpdateRequestStatus(requests, requestId, status, additionalData, now) == requests
  {
  }

  /** Repeating the same update (same `now`) changes nothing more. If
      `additionalData` renames the matching records, the repeat matches the
      renamed records only when the new id is `requestId` again, and the
      overlay is idempotent on those. */
  lemma UpdateIdempotent(requests: seq<MarketingRequest>, requestId: string, status: RequestStatus,
                         additionalData: Patch, now: string)
    ensures var once := UpdateRequestStatus(requests, requestId, status, additionalData, now);
            UpdateRequestStatus(once, requestId, status, additionalData, now) == once
  {
    var once := UpdateRequestStatus(requests, requestId, status, additionalData, now);
    var twice := UpdateRequestStatus(once, requestId, status, additionalData, now);
    forall i | 0 <= i < |once|
      ensures twice[i] == once[i]
    {
      if requests[i].id == requestId {
        UpdateRecordIsPatch(requests[i], status, additionalData, now);
        UpdateRecordIsPatch(once[i], status, additionalData, now);
      }
    }
  }

  /** Updates of two different records commute, as long as neither moves a
      record to another id (each patch leaves `id` unset or sets it to its own
      `requestId`). */
  lemma UpdatesOfDifferentIdsCommute(requests: seq<MarketingRequest>,
                                     id1: string, s1: RequestStatus, d1: Patch, now1: string,
                                     id2: string, s2: RequestStatus, d2: Patch, now2: string)
    requires id1 != id2
    requires d1.id.None? || d1.id == Some(id1)
    requires d2.id.None? || d2.id == Some(id2)
    ensures UpdateRequestStatus(UpdateRequestStatus(requests, id1, s1, d1, now1), id2, s2, d2, now2)
         == UpdateRequestStatus(UpdateRequestStatus(requests, id2, s2, d2, now2), id1, s1, d1, now1)
  {
    var a1 := UpdateRequestStatus(requests, id1, s1, d1, now1);
    var a := UpdateRequestStatus(a1, id2, s2, d2, now2);
    var b2 := UpdateRequestStatus(requests, id2, s2, d2, now2);
    var b := UpdateRequestStatus(b2, id1, s1, d1, now1);
    forall i | 0 <= i < |requests|
      ensures a[i] == b[i]
    {
      if requests[i].id == id1 {
        assert a1[i] == UpdateRecord(requests[i], s1, d1, now1);
        assert a1[i].id == id1;
        assert b2[i] == requests[i];
        assert a[i] == a1[i];
      } else if requests[i].id == id2 {
        assert b2[i] == UpdateRecord(requests[i], s2, d2, now2);
        assert b2[i].id == id2;
        assert a1[i] == requests[i];
        assert b[i] == b2[i];
      } else {
        assert a1[i] == requests[i] && b2[i] == requests[i];
      }
    }
  }

  /** The partial row sent to the store: mapToDb of `{status, ...additionalData, updatedAt: now}`.
      It always holds `status` and `updated_at`; its `updated_at` is the same
      `now` written locally; besides those it holds exactly the columns of
      the properties `additionalData` defines. */
  function UpdatePayload(status: RequestStatus, additionalData: Patch, now: string): (row: Row)
    ensures STATUS in row && row[STATUS] == Text(StatusValue(additionalData.status.GetOr(status)))
    ensures UPDATED_AT in row && row[UPDATED_AT] == Text(now)
    ensures row.Keys == ToDb(additionalData).Keys + {STATUS, UPDATED_AT}
    ensures forall c :: c in ToDb(additionalData) && c != UPDATED_AT ==> row[c] == ToDb(additionalData)[c]
  {
    PayloadColumns(status, additionalData, now);
    ToDb(UpdatePatch(status, additionalData, now))
  }

  /** Column by column, mapToDb of the update patch against mapToDb of `additionalData`. */
  lemma PayloadColumns(status: RequestStatus, additionalData: Patch, now: string)
    ensures var row := ToDb(UpdatePatch(status, additionalData, now));
            var extra := ToDb(additionalData);
            && row.Keys == extra.Keys + {STATUS, UPDATED_AT}
            && forall c :: c in extra && c != UPDATED_AT ==> row[c] == extra[c]
  {
    var row := ToDb(UpdatePatch(status, additionalData, now));
    var extra := ToDb(additionalData);
    forall c
      ensures c in row <==> c in extra || c == STATUS || c == UPDATED_AT
      ensures c in extra && c != UPDATED_AT ==> row[c] == extra[c]
    {
      match c
      case ID =>
      case CREATED_AT =>
      case UPDATED_AT =>
      case RTM_ID =>
      case RTM_NAME =>
      case REGION_ID =>
      case BRANCHES =>
      case STATUS =>
      case APPROVED_AMOUNT =>
      case TM_COMMENT =>
    }
  }

  /** Local and remote stay in step: applying the update payload to the stored
      row of a matching record and reading it back gives the record the list now holds. */
  lemma PayloadMatchesLocalUpdate(requests: seq<MarketingRequest>, requestId: string, status: RequestStatus,
                                  additionalData: Patch, now: string, i: int)
    requires 0 <= i < |requests| && requests[i].id == requestId
    ensures IsStoredRow(Update(ToDb(Whole(requests[i])), UpdatePayload(status, additionalData, now)))
    ensures FromDb(Update(ToDb(Whole(requests[i])), UpdatePayload(status, additionalData, now)))
         == UpdateRequestStatus(requests, requestId, status, additionalData, now)[i]
  {
    UpdateAgreesWithSpread(requests[i], UpdatePatch(status, additionalData, now));
    UpdateRecordIsPatch(requests[i], status, additionalData, now);
  }
}
