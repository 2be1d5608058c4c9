/** The MySQL database the controllers talk to, as one object holding the
    four tables and their AUTO_INCREMENT counters. Each method is one SQL
    statement: it either applies in full or, when MySQL would reject it (a
    NOT NULL, UNIQUE or FOREIGN KEY violation), reports failure and leaves
    every table as it was. */
module Store {
  import opened Common
  import opened Schema

  /** The SET clause of an UPDATE on MAINTENANCE_REQUESTS, one entry per
      column a request body may name. */
  datatype RequestPatch = RequestPatch(
    subject: Field<string>, status: Field<RequestStatus>, technicianId: Field<int>,
    scheduledDate: Field<int>, durationHours: Field<int>, costEstimation: Field<int>,
    completionNotes: Field<string>)

  /** No column is named: an UPDATE with an empty SET list. */
  predicate EmptyPatch(p: RequestPatch) {
    && p.subject.Absent? && p.status.Absent? && p.technicianId.Absent?
    && p.scheduledDate.Absent? && p.durationHours.Absent? && p.costEstimation.Absent?
    && p.completionNotes.Absent?
  }

  /** The row after the SET clause, before `updated_at` is refreshed. An
      explicit NULL for the NOT NULL `subject` is rejected by the statement,
      so here it keeps the old subject. */
  function Apply(r: RequestRow, p: RequestPatch): (r': RequestRow)
    ensures r'.id == r.id && r'.equipmentId == r.equipmentId && r'.teamId == r.teamId
    ensures r'.requestType == r.requestType && r'.createdBy == r.createdBy
    ensures r'.createdAt == r.createdAt && r'.updatedAt == r.updatedAt
    ensures r'.subject == if p.subject.Given? then p.subject.value else r.subject
    ensures r'.status == Overwrite(r.status, p.status)
    ensures r'.technicianId == Overwrite(r.technicianId, p.technicianId)
    ensures r'.scheduledDate == Overwrite(r.scheduledDate, p.scheduledDate)
    ensures r'.durationHours == Overwrite(r.durationHours, p.durationHours)
    ensures r'.costEstimation == Overwrite(r.costEstimation, p.costEstimation)
    ensures r'.completionNotes == Overwrite(r.completionNotes, p.completionNotes)
    ensures EmptyPatch(p) ==> r' == r
  {
    r.(subject := if p.subject.Given? then p.subject.value else r.subject,
       status := Overwrite(r.status, p.status),
       technicianId := Overwrite(r.technicianId, p.technicianId),
       scheduledDate := Overwrite(r.scheduledDate, p.scheduledDate),
       durationHours := Overwrite(r.durationHours, p.durationHours),
       costEstimation := Overwrite(r.costEstimation, p.costEstimation),
       completionNotes := Overwrite(r.completionNotes, p.completionNotes))
  }

  class Database {
    var teams: seq<TeamRow>
    var users: seq<UserRow>
    var equipment: seq<EquipmentRow>
    var requests: seq<RequestRow>
    var nextTeamId: nat
    var nextUserId: nat
    var nextEquipmentId: nat
    var nextRequestId: nat

    /** Every constraint of the schema holds and each AUTO_INCREMENT counter
        is above every id handed out so far. */
    ghost predicate Valid()
      reads this
    {
      && Consistent(teams, users, equipment, requests)
      && KeysBelow(teams, TeamKey, nextTeamId)
      && KeysBelow(users, UserKey, nextUserId)
      && KeysBelow(equipment, EquipmentKey, nextEquipmentId)
      && KeysBelow(requests, RequestKey, nextRequestId)
    }

    /** The database as the initialisation script leaves it, seeded at `at`. */
    constructor (at: int)
      ensures Valid()
      ensures teams == SeedTeams(at) && users == SeedUsers(at)
      ensures equipment == SeedEquipment(at) && requests == SeedRequests(at)
      ensures nextTeamId == 5 && nextUserId == 8 && nextEquipmentId == 11 && nextRequestId == 9
    {
      teams := SeedTeams(at);
      users := SeedUsers(at);
      equipment := SeedEquipment(at);
      requests := SeedRequests(at);
      nextTeamId := 5;
      nextUserId := 8;
      nextEquipmentId := 11;
      nextRequestId := 9;
      SeedConsistent(at);
    }

    /** INSERT INTO MAINTENANCE_TEAMS (team_name) VALUES (name). */
    method InsertTeam(name: string, now: int) returns (ok: bool, id: nat)
      requires Valid()
      modifies this`teams, this`nextTeamId
      ensures Valid()
      ensures ok <==> forall t :: t in old(teams) ==> t.name != name
      ensures ok ==> id == old(nextTeamId) && nextTeamId == id + 1
      ensures ok ==> teams == old(teams) + [TeamRow(id, name, now)]
      ensures !ok ==> teams == old(teams) && nextTeamId == old(nextTeamId)
    {
      if NameFree(teams, name, nextTeamId) {
        id := nextTeamId;
        InsertTeamConsistent(teams, users, equipment, requests, TeamRow(id, name, now), id);
        teams := teams + [TeamRow(id, name, now)];
        nextTeamId := nextTeamId + 1;
        ok := true;
      } else {
        ok, id := false, 0;
      }
    }

    /** UPDATE MAINTENANCE_TEAMS SET team_name = name WHERE team_id = id. */
    method RenameTeam(id: int, name: Option<string>) returns (ok: bool)
      requires Valid()
      modifies this`teams
      ensures Valid()
      ensures Lookup(old(teams), TeamKey, id).None? ==> ok && teams == old(teams)
      ensures Lookup(old(teams), TeamKey, id).Some? ==>
        var t := Lookup(old(teams), TeamKey, id).value;
        && (ok <==> name.Some? && forall u :: u in old(teams) && u.id != id ==> u.name != name.value)
        && (ok ==> teams == Replace(old(teams), TeamKey, t.(name := name.value)))
      ensures !ok ==> teams == old(teams)
    {
      match Find(teams, TeamKey, id)
      case None =>
        ok := true;
      case Some(i) =>
        if name.Some? && NameFree(teams, name.value, id) {
          RenameTeamConsistent(teams, users, equipment, requests, i, name.value);
          ReplaceAt(teams, TeamKey, i, teams[i].(name := name.value));
          teams := teams[i := teams[i].(name := name.value)];
          ok := true;
        } else {
          ok := false;
        }
    }

    /** DELETE FROM MAINTENANCE_TEAMS WHERE team_id = id, with the SET NULL
        actions of every table that refers to teams. */
    method DeleteTeam(id: int)
      requires Valid()
      modifies this`teams, this`users, this`equipment, this`requests
      ensures Valid()
      ensures teams == WithoutTeam(old(teams), id) && users == DetachUsers(old(users), id)
      ensures equipment == DetachAllEquipment(old(equipment), id) && requests == DetachRequests(old(requests), id)
    {
      DeleteTeamConsistent(teams, users, equipment, requests, id);
      SameKeysPreserve(users, DetachUsers(users, id), UserKey);
      SameKeysPreserve(equipment, DetachAllEquipment(equipment, id), EquipmentKey);
      SameKeysPreserve(requests, DetachRequests(requests, id), RequestKey);
      teams, users, equipment, requests :=
        WithoutTeam(teams, id), DetachUsers(users, id), DetachAllEquipment(equipment, id), DetachRequests(requests, id);
    }

    /** INSERT INTO EQUIPMENT (...) VALUES (...). */
    method InsertEquipment(
      name: string, serial: string, location: string, department: string,
      teamId: Option<int>, status: Option<EquipmentStatus>, now: int)
      returns (ok: bool, id: nat)
      requires Valid()
      modifies this`equipment, this`nextEquipmentId
      ensures Valid()
      ensures ok <==> (forall e :: e in old(equipment) ==> e.serialNumber != serial) && TeamRef(teams, teamId)
      ensures ok ==> id == old(nextEquipmentId) && nextEquipmentId == id + 1
      ensures ok ==> equipment == old(equipment) + [EquipmentRow(id, name, serial, location, department, teamId, status, now)]
      ensures !ok ==> equipment == old(equipment) && nextEquipmentId == old(nextEquipmentId)
    {
      if SerialFree(equipment, serial, nextEquipmentId) && TeamRef(teams, teamId) {
        id := nextEquipmentId;
        var row := EquipmentRow(id, name, serial, location, department, teamId, status, now);
        InsertEquipmentConsistent(teams, users, equipment, requests, row, id);
        equipment := equipment + [row];
        nextEquipmentId := nextEquipmentId + 1;
        ok := true;
      } else {
        ok, id := false, 0;
      }
    }

    /** UPDATE EQUIPMENT SET name, serial_number, location, department,
        team_id, status WHERE equipment_id = id; a missing value is NULL. */
    method UpdateEquipment(
      id: int, name: Option<string>, serial: Option<string>, location: Option<string>,
      department: Option<string>, teamId: Option<int>, status: Option<EquipmentStatus>)
      returns (ok: bool)
      requires Valid()
      modifies this`equipment
      ensures Valid()
      ensures Lookup(old(equipment), EquipmentKey, id).None? ==> ok && equipment == old(equipment)
      ensures Lookup(old(equipment), EquipmentKey, id).Some? ==>
        var e := Lookup(old(equipment), EquipmentKey, id).value;
        && (ok <==> && name.Some? && serial.Some? && location.Some? && department.Some?
                    && (forall f :: f in old(equipment) && f.id != id ==> f.serialNumber != serial.value)
                    && TeamRef(teams, teamId))
        && (ok ==> equipment == Replace(old(equipment), EquipmentKey,
                      e.(name := name.value, serialNumber := serial.value, location := location.value,
                         department := department.value, teamId := teamId, status := status)))
      ensures !ok ==> equipment == old(equipment)
    {
      match Find(equipment, EquipmentKey, id)
      case None =>
        ok := true;
      case Some(i) =>
        if && name.Some? && serial.Some? && location.Some? && department.Some?
           && SerialFree(equipment, serial.value, id) && TeamRef(teams, teamId)
        {
          var row := equipment[i].(name := name.value, serialNumber := serial.value, location := location.value,
                                   department := department.value, teamId := teamId, status := status);
          UpdateEquipmentConsistent(teams, users, equipment, requests, i, row);
          ReplaceAt(equipment, EquipmentKey, i, row);
          SameKeysPreserve(equipment, equipment[i := row], EquipmentKey);
          equipment := equipment[i := row];
          ok := true;
        } else {
          ok := false;
        }
    }

    /** DELETE FROM EQUIPMENT WHERE equipment_id = id, cascading to the
        requests raised against it. */
    method DeleteEquipment(id: int)
      requires Valid()
      modifies this`equipment, this`requests
      ensures Valid()
      ensures equipment == WithoutEquipment(old(equipment), id)
      ensures requests == RequestsWithoutEquipment(old(requests), id)
    {
      DeleteEquipmentConsistent(teams, users, equipment, requests, id);
      equipment, requests := WithoutEquipment(equipment, id), RequestsWithoutEquipment(requests, id);
    }

    /** INSERT INTO MAINTENANCE_REQUESTS (subject, equipment_id, team_id,
        request_type, scheduled_date, created_by, status) VALUES (..., 'NEW'). */
    method InsertRequest(
      subject: string, equipmentId: int, teamId: Option<int>, requestType: RequestType,
      scheduledDate: Option<int>, createdBy: int, now: int)
      returns (ok: bool, id: nat)
      requires Valid()
      modifies this`requests, this`nextRequestId
      ensures Valid()
      ensures var row := RequestRow(old(nextRequestId), subject, equipmentId, teamId, None, requestType, Some(New),
                                    scheduledDate, None, None, None, createdBy, now, now);
        && (ok <==> RequestRefsOk(row, teams, users, equipment))
        && (ok ==> id == old(nextRequestId) && nextRequestId == id + 1 && requests == old(requests) + [row])
      ensures !ok ==> requests == old(requests) && nextRequestId == old(nextRequestId)
    {
      var row := RequestRow(nextRequestId, subject, equipmentId, teamId, None, requestType, Some(New),
                            scheduledDate, None, None, None, createdBy, now, now);
      if RequestRefsOk(row, teams, users, equipment) {
        id := nextRequestId;
        InsertRequestConsistent(teams, users, equipment, requests, row, id);
        requests := requests + [row];
        nextRequestId := nextRequestId + 1;
        ok := true;
      } else {
        ok, id := false, 0;
      }
    }

    /** UPDATE MAINTENANCE_REQUESTS SET <patch> WHERE request_id = id, with
        `updated_at` refreshed when the row changes. */
    method UpdateRequest(id: int, p: RequestPatch, now: int) returns (ok: bool)
      requires Valid()
      modifies this`requests
      ensures Valid()
      ensures Lookup(old(requests), RequestKey, id).None? ==> ok && requests == old(requests)
      ensures Lookup(old(requests), RequestKey, id).Some? ==>
        var r := Lookup(old(requests), RequestKey, id).value;
        var r' := Touch(r, Apply(r, p), now);
        && (ok <==> !p.subject.Null? && RequestRefsOk(r', teams, users, equipment))
        && (ok ==> requests == Replace(old(requests), RequestKey, r'))
      ensures !ok ==> requests == old(requests)
    {
      match Find(requests, RequestKey, id)
      case None =>
        ok := true;
      case Some(i) =>
        var r' := Touch(requests[i], Apply(requests[i], p), now);
        if !p.subject.Null? && RequestRefsOk(r', teams, users, equipment) {
          UpdateRequestConsistent(teams, users, equipment, requests, i, r');
          ReplaceAt(requests, RequestKey, i, r');
          SameKeysPreserve(requests, requests[i := r'], RequestKey);
          requests := requests[i := r'];
          ok := true;
        } else {
          ok := false;
        }
    }

    /** DELETE FROM MAINTENANCE_REQUESTS WHERE request_id = id. */
    method DeleteRequest(id: int)
      requires Valid()
      modifies this`requests
      ensures Valid()
      ensures requests == WithoutRequest(old(requests), id)
    {
      DeleteRequestConsistent(teams, users, equipment, requests, id);
      requests := WithoutRequest(requests, id);
    }

    /** DELETE FROM USERS WHERE user_id = id, cascading to the requests the
        user created and unassigning those assigned to them. */
    method DeleteUser(id: int)
      requires Valid()
      modifies this`users, this`requests
      ensures Valid()
      ensures users == WithoutUser(old(users), id)
      ensures requests == RequestsWithoutUser(old(requests), id)
    {
      DeleteUserConsistent(teams, users, equipment, requests, id);
      var kept := Filter(requests, (q: RequestRow) => q.createdBy != id);
      assert SameKeys(kept, RequestsWithoutUser(requests, id), RequestKey);
      SameKeysPreserve(kept, RequestsWithoutUser(requests, id), RequestKey);
      users, requests := WithoutUser(users, id), RequestsWithoutUser(requests, id);
    }
  }
}
