/** The equipment handlers of backend/controllers/equipmentController.js. */
module EquipmentController {
  import opened Common
  import opened Schema
  import opened Store
  import opened Auth

  /** The listing's WHERE clause: a TECHNICIAN with a team sees that team's
      equipment; everyone else sees all of it. */
  predicate EquipmentListedFor(who: Identity, e: EquipmentRow) {
    if who.role == Technician && !BlankId(who.teamId) then e.teamId == who.teamId else true
  }

  /** ORDER BY created_at DESC. */
  predicate EquipmentCreatedNotBefore(a: EquipmentRow, b: EquipmentRow) {
    a.createdAt >= b.createdAt
  }

  lemma EquipmentCreatedNotBeforeTotal()
    ensures TotalPreorder(EquipmentCreatedNotBefore)
  {
  }

  function EquipmentScope(equipment: seq<EquipmentRow>, who: Identity): seq<EquipmentRow> {
    Filter(equipment, (e: EquipmentRow) => EquipmentListedFor(who, e))
  }

  /** GET /api/equipment. */
  function GetAllEquipment(equipment: seq<EquipmentRow>, who: Identity): (r: seq<EquipmentRow>)
    ensures multiset(r) == multiset(EquipmentScope(equipment, who))
  {
    SortBy(EquipmentScope(equipment, who), EquipmentCreatedNotBefore)
  }

  /** The listing holds exactly the equipment the caller may see, newest
      first; only a TECHNICIAN with a team is narrowed. */
  lemma GetAllEquipmentListsScope(equipment: seq<EquipmentRow>, who: Identity)
    ensures forall x :: x in GetAllEquipment(equipment, who) <==> x in equipment && EquipmentListedFor(who, x)
    ensures multiset(GetAllEquipment(equipment, who)) <= multiset(equipment)
    ensures !(who.role == Technician && !BlankId(who.teamId)) ==>
      multiset(GetAllEquipment(equipment, who)) == multiset(equipment)
    ensures SortedBy(GetAllEquipment(equipment, who), EquipmentCreatedNotBefore)
  {
    var scope := EquipmentScope(equipment, who);
    var listed := GetAllEquipment(equipment, who);
    forall x ensures x in listed <==> x in equipment && EquipmentListedFor(who, x) {
      calc {
        x in listed;
        x in multiset(listed);
        x in multiset(scope);
        x in scope;
      }
    }
    FilterMultiset(equipment, (e: EquipmentRow) => EquipmentListedFor(who, e));
    if !(who.role == Technician && !BlankId(who.teamId)) {
      FilterAll(equipment, (e: EquipmentRow) => EquipmentListedFor(who, e));
    }
    EquipmentCreatedNotBeforeTotal();
    SortBySorted(scope, EquipmentCreatedNotBefore);
  }

  /** GET /api/equipment/:id: 404 exactly when absent, with no role check. */
  function GetEquipment(equipment: seq<EquipmentRow>, id: int): (r: Result<EquipmentRow>)
    ensures r.Err? <==> !HasKey(equipment, EquipmentKey, id)
    ensures r.Err? ==> r.error == NotFound
    ensures r.Ok? ==> r.value in equipment && r.value.id == id
  {
    match Lookup(equipment, EquipmentKey, id)
    case None => Err(NotFound)
    case Some(e) => Ok(e)
  }

  /** The members of a create or update body. */
  datatype EquipmentBody = EquipmentBody(
    name: Option<string>, serialNumber: Option<string>, location: Option<string>,
    department: Option<string>, teamId: Option<int>, status: Option<EquipmentStatus>)

  /** createEquipment's validation: the four text members must be truthy. */
  predicate EquipmentComplete(body: EquipmentBody) {
    !Blank(body.name) && !Blank(body.serialNumber) && !Blank(body.location) && !Blank(body.department)
  }

  predicate SerialTaken(equipment: seq<EquipmentRow>, serial: string) {
    exists e :: e in equipment && e.serialNumber == serial
  }

  /** POST /api/equipment: 400 for a missing field or a serial number
      already in use; a falsy team becomes NULL and a missing status ACTIVE. */
  method CreateEquipment(db: Database, body: EquipmentBody, now: int) returns (r: Result<EquipmentRow>)
    requires db.Valid()
    modifies db`equipment, db`nextEquipmentId
    ensures db.Valid()
    ensures !EquipmentComplete(body) ==> r == Err(BadRequest)
    ensures EquipmentComplete(body) && SerialTaken(old(db.equipment), body.serialNumber.value) ==> r == Err(BadRequest)
    ensures EquipmentComplete(body) && !SerialTaken(old(db.equipment), body.serialNumber.value) ==>
      (r.Ok? <==> TeamRef(db.teams, IdOrNull(body.teamId)))
    ensures r.Ok? ==>
      && db.equipment == old(db.equipment) + [r.value]
      && r.value == EquipmentRow(old(db.nextEquipmentId), body.name.value, body.serialNumber.value,
                                 body.location.value, body.department.value, IdOrNull(body.teamId),
                                 Some(if body.status.Some? then body.status.value else Active), now)
    ensures r.Err? ==> db.equipment == old(db.equipment) && db.nextEquipmentId == old(db.nextEquipmentId)
    ensures r.Err? ==> r.error in {BadRequest, Internal}
  {
    if !EquipmentComplete(body) {
      return Err(BadRequest);
    }
    if SerialTaken(db.equipment, body.serialNumber.value) {
      return Err(BadRequest);
    }
    var status := if body.status.Some? then body.status.value else Active;
    var ok, id := db.InsertEquipment(body.name.value, body.serialNumber.value, body.location.value,
                                     body.department.value, IdOrNull(body.teamId), Some(status), now);
    if ok {
      r := Ok(db.equipment[|db.equipment| - 1]);
    } else {
      r := Err(Internal);
    }
  }

  /** Every text member is present (possibly empty): NULL in a NOT NULL
      column is what the update statement rejects. */
  predicate EquipmentFilled(body: EquipmentBody) {
    body.name.Some? && body.serialNumber.Some? && body.location.Some? && body.department.Some?
  }

  /** The row after the full-replace UPDATE of updateEquipment. */
  function Overwritten(e: EquipmentRow, body: EquipmentBody): (e': EquipmentRow)
    requires EquipmentFilled(body)
    ensures e'.id == e.id && e'.createdAt == e.createdAt
    ensures e'.name == body.name.value && e'.serialNumber == body.serialNumber.value
    ensures e'.location == body.location.value && e'.department == body.department.value
    ensures e'.teamId.None? <==> BlankId(body.teamId)
    ensures !BlankId(body.teamId) ==> e'.teamId == body.teamId
    ensures e'.status == body.status
  {
    e.(name := body.name.value, serialNumber := body.serialNumber.value,
       location := body.location.value, department := body.department.value,
       teamId := IdOrNull(body.teamId), status := body.status)
  }

  /** PUT /api/equipment/:id: 404 when absent; otherwise all six columns are
      replaced, a falsy team becoming NULL. The handler checks nothing else:
      a missing text member or a serial number in use fails in the database
      (500). */
  method UpdateEquipment(db: Database, id: int, body: EquipmentBody) returns (r: Result<EquipmentRow>)
    requires db.Valid()
    modifies db`equipment
    ensures db.Valid()
    ensures Lookup(old(db.equipment), EquipmentKey, id).None? ==> r == Err(NotFound)
    ensures Lookup(old(db.equipment), EquipmentKey, id).Some? ==>
      && (r.Ok? <==> && EquipmentFilled(body)
                     && (forall f :: f in old(db.equipment) && f.id != id ==> f.serialNumber != body.serialNumber.value)
                     && TeamRef(db.teams, IdOrNull(body.teamId)))
      && (r.Err? ==> r.error == Internal)
    ensures r.Ok? ==>
      && Lookup(old(db.equipment), EquipmentKey, id).Some? && EquipmentFilled(body)
      && r.value == Overwritten(Lookup(old(db.equipment), EquipmentKey, id).value, body)
      && db.equipment == Replace(old(db.equipment), EquipmentKey, r.value)
    ensures r.Err? ==> db.equipment == old(db.equipment)
  {
    match Lookup(db.equipment, EquipmentKey, id)
    case None =>
      r := Err(NotFound);
    case Some(e) =>
      var ok := db.UpdateEquipment(id, body.name, body.serialNumber, body.location, body.department,
                                   IdOrNull(body.teamId), body.status);
      if ok {
        r := Ok(Overwritten(e, body));
      } else {
        r := Err(Internal);
      }
  }

  /** DELETE /api/equipment/:id: 404 when absent; otherwise the row goes and
      the requests raised against it go with it. */
  method DeleteEquipment(db: Database, id: int) returns (r: Result<()>)
    requires db.Valid()
    modifies db`equipment, db`requests
    ensures db.Valid()
    ensures !HasKey(old(db.equipment), EquipmentKey, id) ==>
      r == Err(NotFound) && db.equipment == old(db.equipment) && db.requests == old(db.requests)
    ensures HasKey(old(db.equipment), EquipmentKey, id) ==>
      && r.Ok?
      && db.equipment == WithoutEquipment(old(db.equipment), id)
      && db.requests == RequestsWithoutEquipment(old(db.requests), id)
  {
    if !HasKey(db.equipment, EquipmentKey, id) {
      return Err(NotFound);
    }
    db.DeleteEquipment(id);
    r := Ok(());
  }

  /** After deleting equipment no request refers to it, and every request
      for other equipment is still there. */
  lemma DeleteEquipmentCascades(requests: seq<RequestRow>, id: int)
    ensures forall q :: q in RequestsWithoutEquipment(requests, id) ==> q.equipmentId != id
    ensures forall q :: q in requests && q.equipmentId != id ==> q in RequestsWithoutEquipment(requests, id)
  {
  }
}
