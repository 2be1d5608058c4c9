/** The maintenance-request handlers of
    backend/controllers/requestController.js. Reads are functions of the
    request table; the four mutating handlers are methods on the database.
    Every handler answers with the row(s) it read back, or with an error;
    the joined display columns (equipment, team and user names) are not
    part of the model. */
module RequestController {
  import opened Common
  import opened Schema
  import opened Store
  import opened Auth

  // ---------------------------------------------------------------------
  // Listing and single read

  /** The WHERE clause of the listing: a USER sees the requests they
      created, a TECHNICIAN with a team sees that team's requests, and
      everyone else (ADMIN, or a TECHNICIAN without a team) sees all. */
  predicate ListedFor(who: Identity, r: RequestRow) {
    if who.role == User then r.createdBy == who.userId
    else if who.role == Technician && !BlankId(who.teamId) then r.teamId == who.teamId
    else true
  }

  /** ORDER BY created_at DESC: `a` may be listed ahead of `b`. */
  predicate CreatedNotBefore(a: RequestRow, b: RequestRow) {
    a.createdAt >= b.createdAt
  }

  lemma CreatedNotBeforeTotal()
    ensures TotalPreorder(CreatedNotBefore)
  {
  }

  function ScopeOf(requests: seq<RequestRow>, who: Identity): seq<RequestRow> {
    Filter(requests, (r: RequestRow) => ListedFor(who, r))
  }

  /** GET /api/requests. */
  function GetAllRequests(requests: seq<RequestRow>, who: Identity): (r: seq<RequestRow>)
    ensures multiset(r) == multiset(ScopeOf(requests, who))
  {
    SortBy(ScopeOf(requests, who), CreatedNotBefore)
  }

  /** The listing holds exactly the rows the caller may see, each as often
      as in the table, newest first. */
  lemma GetAllRequestsListsScope(requests: seq<RequestRow>, who: Identity)
    ensures forall x :: x in GetAllRequests(requests, who) <==> x in requests && ListedFor(who, x)
    ensures multiset(GetAllRequests(requests, who)) <= multiset(requests)
    ensures SortedBy(GetAllRequests(requests, who), CreatedNotBefore)
  {
    var scope := ScopeOf(requests, who);
    var listed := GetAllRequests(requests, who);
    forall x ensures x in listed <==> x in requests && ListedFor(who, x) {
      calc {
        x in listed;
        x in multiset(listed);
        x in multiset(scope);
        x in scope;
      }
    }
    FilterMultiset(requests, (r: RequestRow) => ListedFor(who, r));
    CreatedNotBeforeTotal();
    SortBySorted(scope, CreatedNotBefore);
  }

  /** An ADMIN, and a TECHNICIAN without a team, get every row of the table. */
  lemma GetAllRequestsUnscoped(requests: seq<RequestRow>, who: Identity)
    requires who.role == Admin || (who.role == Technician && BlankId(who.teamId))
    ensures multiset(GetAllRequests(requests, who)) == multiset(requests)
  {
    FilterAll(requests, (r: RequestRow) => ListedFor(who, r));
  }

  /** GET /api/requests/:id: 404 when absent, 403 only for a USER who did
      not create the row; an ADMIN or TECHNICIAN reads any request. */
  function GetRequest(requests: seq<RequestRow>, who: Identity, id: int): (r: Result<RequestRow>)
    ensures r == Err(NotFound) <==> !HasKey(requests, RequestKey, id)
    ensures r == Err(Forbidden) <==>
      HasKey(requests, RequestKey, id) && who.role == User
      && Lookup(requests, RequestKey, id).value.createdBy != who.userId
    ensures r.Ok? ==> r.value in requests && r.value.id == id
    ensures r.Ok? && who.role == User ==> r.value.createdBy == who.userId
    ensures who.role != User && HasKey(requests, RequestKey, id) ==> r.Ok?
  {
    match Lookup(requests, RequestKey, id)
    case None => Err(NotFound)
    case Some(row) =>
      if who.role == User && row.createdBy != who.userId then Err(Forbidden) else Ok(row)
  }

  // ---------------------------------------------------------------------
  // Create

  /** The members of a create body; `teamId` and `status` are read by
      nothing and stand for whatever else a client sends. */
  datatype NewRequestBody = NewRequestBody(
    subject: Option<string>, equipmentId: Option<int>, requestType: Option<RequestType>,
    scheduledDate: Option<int>, teamId: Option<int>, status: Option<RequestStatus>)

  /** The create validation: subject, equipment_id and request_type must all
      be truthy. */
  predicate NewRequestComplete(body: NewRequestBody) {
    !Blank(body.subject) && !BlankId(body.equipmentId) && body.requestType.Some?
  }

  /** POST /api/requests. */
  method CreateRequest(db: Database, who: Identity, body: NewRequestBody, now: int)
    returns (r: Result<RequestRow>)
    requires db.Valid()
    modifies db`requests, db`nextRequestId
    ensures db.Valid()
    ensures !NewRequestComplete(body) ==> r == Err(BadRequest)
    ensures NewRequestComplete(body) && !HasKey(db.equipment, EquipmentKey, body.equipmentId.value) ==>
      r == Err(NotFound)
    ensures NewRequestComplete(body) && HasKey(db.equipment, EquipmentKey, body.equipmentId.value) ==>
      (r.Ok? <==> HasKey(db.users, UserKey, who.userId))
    ensures r.Ok? ==>
      && db.requests == old(db.requests) + [r.value]
      && r.value.id == old(db.nextRequestId)
      && r.value.subject == body.subject.value && r.value.equipmentId == body.equipmentId.value
      && r.value.teamId == Lookup(db.equipment, EquipmentKey, body.equipmentId.value).value.teamId
      && r.value.technicianId.None? && r.value.requestType == body.requestType.value
      && r.value.status == Some(New) && r.value.scheduledDate == body.scheduledDate
      && r.value.durationHours.None? && r.value.costEstimation.None? && r.value.completionNotes.None?
      && r.value.createdBy == who.userId && r.value.createdAt == now && r.value.updatedAt == now
    ensures r.Err? ==> db.requests == old(db.requests) && db.nextRequestId == old(db.nextRequestId)
    ensures r.Err? ==> r.error in {BadRequest, NotFound, Internal}
  {
    if !NewRequestComplete(body) {
      return Err(BadRequest);
    }
    var equipmentId := body.equipmentId.value;
    match Lookup(db.equipment, EquipmentKey, equipmentId)
    case None =>
      r := Err(NotFound);
    case Some(e) =>
      var ok, id := db.InsertRequest(body.subject.value, equipmentId, e.teamId, body.requestType.value,
                                     body.scheduledDate, who.userId, now);
      if ok {
        r := Ok(db.requests[|db.requests| - 1]);
      } else {
        r := Err(Internal);
      }
  }

  // ---------------------------------------------------------------------
  // Update, delete and assignment

  /** updateRequest's team check: a TECHNICIAN may change only a request of
      their own team (JavaScript `!==`, so two missing teams compare equal). */
  predicate TeamMismatch(who: Identity, row: RequestRow) {
    who.role == Technician && row.teamId != who.teamId
  }

  /** PUT /api/requests/:id: 404, then 403, then 400 when the body names
      no column; otherwise the named columns are overwritten. */
  method UpdateRequest(db: Database, who: Identity, id: int, body: RequestPatch, now: int)
    returns (r: Result<RequestRow>)
    requires db.Valid()
    modifies db`requests
    ensures db.Valid()
    ensures Lookup(old(db.requests), RequestKey, id).None? ==> r == Err(NotFound)
    ensures Lookup(old(db.requests), RequestKey, id).Some? ==>
      var row := Lookup(old(db.requests), RequestKey, id).value;
      var row' := Touch(row, Apply(row, body), now);
      && (TeamMismatch(who, row) ==> r == Err(Forbidden))
      && (!TeamMismatch(who, row) && EmptyPatch(body) ==> r == Err(BadRequest))
      && (!TeamMismatch(who, row) && !EmptyPatch(body) ==>
            (r.Ok? <==> !body.subject.Null? && RequestRefsOk(row', db.teams, db.users, db.equipment))
            && (r.Ok? ==> r.value == row' && db.requests == Replace(old(db.requests), RequestKey, row'))
            && (r.Err? ==> r.error == Internal))
    ensures r.Err? ==> db.requests == old(db.requests)
  {
    match Lookup(db.requests, RequestKey, id)
    case None =>
      r := Err(NotFound);
    case Some(row) =>
      if TeamMismatch(who, row) {
        return Err(Forbidden);
      }
      if EmptyPatch(body) {
        return Err(BadRequest);
      }
      var ok := db.UpdateRequest(id, body, now);
      if ok {
        r := Ok(Touch(row, Apply(row, body), now));
      } else {
        r := Err(Internal);
      }
  }

  /** DELETE /api/requests/:id. */
  method DeleteRequest(db: Database, id: int) returns (r: Result<()>)
    requires db.Valid()
    modifies db`requests
    ensures db.Valid()
    ensures !HasKey(old(db.requests), RequestKey, id) ==> r == Err(NotFound) && db.requests == old(db.requests)
    ensures HasKey(old(db.requests), RequestKey, id) ==> r.Ok? && db.requests == WithoutRequest(old(db.requests), id)
  {
    if !HasKey(db.requests, RequestKey, id) {
      return Err(NotFound);
    }
    db.DeleteRequest(id);
    r := Ok(());
  }

  /** Deleting a present request removes that one row and keeps every
      other row, in order. */
  lemma DeleteRequestRemovesOne(requests: seq<RequestRow>, i: nat)
    requires KeysIncreasing(requests, RequestKey) && i < |requests|
    ensures WithoutRequest(requests, requests[i].id) == requests[..i] + requests[i + 1..]
  {
    var id := requests[i].id;
    FilterExcept(requests, (q: RequestRow) => q.id != id, i);
  }

  /** The assignments of PUT /api/requests/:id/assign: a TECHNICIAN takes
      the request and starts it; anyone else sets `technician_id` to the
      body's value (NULL when missing) and leaves the status alone. */
  function AssignPatch(who: Identity, technicianId: Option<int>): (p: RequestPatch)
    ensures !EmptyPatch(p) && !p.subject.Null?
    ensures who.role == Technician ==> p.technicianId == Given(who.userId) && p.status == Given(InProgress)
    ensures who.role != Technician ==> p.status.Absent? && p.technicianId.Given? == technicianId.Some?
  {
    if who.role == Technician then
      RequestPatch(Absent, Given(InProgress), Given(who.userId), Absent, Absent, Absent, Absent)
    else
      RequestPatch(Absent, Absent, if technicianId.Some? then Given(technicianId.value) else Null,
                   Absent, Absent, Absent, Absent)
  }

  /** PUT /api/requests/:id/assign. A TECHNICIAN gets 404 for a missing
      request and 403 for another team's request; an ADMIN's assignment
      has no existence check and reads back nothing for a missing id. */
  method AssignTechnician(db: Database, who: Identity, id: int, technicianId: Option<int>, now: int)
    returns (r: Result<Option<RequestRow>>)
    requires db.Valid()
    modifies db`requests
    ensures db.Valid()
    ensures Lookup(old(db.requests), RequestKey, id).None? ==>
      db.requests == old(db.requests)
      && r == if who.role == Technician then Err(NotFound) else Ok(None)
    ensures Lookup(old(db.requests), RequestKey, id).Some? ==>
      var row := Lookup(old(db.requests), RequestKey, id).value;
      var row' := Touch(row, Apply(row, AssignPatch(who, technicianId)), now);
      && (TeamMismatch(who, row) ==> r == Err(Forbidden))
      && (!TeamMismatch(who, row) ==>
            (r.Ok? <==> RequestRefsOk(row', db.teams, db.users, db.equipment))
            && (r.Ok? ==> r.value == Some(row') && db.requests == Replace(old(db.requests), RequestKey, row'))
            && (r.Err? ==> r.error == Internal))
    ensures r.Err? ==> db.requests == old(db.requests)
  {
    var row := Lookup(db.requests, RequestKey, id);
    if who.role == Technician {
      if row.None? {
        return Err(NotFound);
      }
      if TeamMismatch(who, row.value) {
        return Err(Forbidden);
      }
    }
    var ok := db.UpdateRequest(id, AssignPatch(who, technicianId), now);
    if !ok {
      return Err(Internal);
    }
    r := Ok(Lookup(db.requests, RequestKey, id));
  }

  /** An ADMIN's assignment writes the body's technician_id (NULL when
      missing) and no other column but `updated_at`; the status is kept. */
  lemma AdminAssignEffect(row: RequestRow, who: Identity, technicianId: Option<int>, now: int)
    requires who.role != Technician
    ensures Apply(row, AssignPatch(who, technicianId)) == row.(technicianId := technicianId)
    ensures var row' := Touch(row, Apply(row, AssignPatch(who, technicianId)), now);
      && row'.technicianId == technicianId && row'.status == row.status
      && row'.(technicianId := row.technicianId, updatedAt := row.updatedAt) == row
  {
  }

  /** Self-assignment makes the technician the assignee and the request
      IN_PROGRESS, and changes no other column but `updated_at`. */
  lemma SelfAssignEffect(row: RequestRow, who: Identity, technicianId: Option<int>, now: int)
    requires who.role == Technician
    ensures var row' := Touch(row, Apply(row, AssignPatch(who, technicianId)), now);
      && row'.technicianId == Some(who.userId) && row'.status == Some(InProgress)
      && row'.(technicianId := row.technicianId, status := row.status, updatedAt := row.updatedAt) == row
  {
  }
}
