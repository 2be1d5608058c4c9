/** The relational schema of backend/config/init-db.js: the four tables as
    row datatypes, their enum domains, unique keys and foreign keys as one
    consistency predicate, the referential actions taken on delete, the
    automatic refresh of `updated_at`, and the seed rows. */
module Schema {
  import opened Common

  // ---------------------------------------------------------------------
  // Enum domains

  datatype Role = Admin | User | Technician
  datatype RequestType = Corrective | Preventive
  datatype RequestStatus = New | InProgress | Repaired | Scrap
  datatype EquipmentStatus = Active | Scrapped

  // ---------------------------------------------------------------------
  // Rows. Dates are day numbers, timestamps are clock ticks and the
  // DECIMAL(10,2) columns are integer hundredths. Password hashes are not
  // modelled.

  datatype TeamRow = TeamRow(id: nat, name: string, createdAt: int)

  datatype UserRow = UserRow(
    id: nat, name: string, email: string, role: Role, teamId: Option<int>, createdAt: int)

  datatype EquipmentRow = EquipmentRow(
    id: nat, name: string, serialNumber: string, location: string, department: string,
    teamId: Option<int>, status: Option<EquipmentStatus>, createdAt: int)

  datatype RequestRow = RequestRow(
    id: nat, subject: string, equipmentId: int, teamId: Option<int>, technicianId: Option<int>,
    requestType: RequestType, status: Option<RequestStatus>, scheduledDate: Option<int>,
    durationHours: Option<int>, costEstimation: Option<int>, completionNotes: Option<string>,
    createdBy: int, createdAt: int, updatedAt: int)

  function TeamKey(t: TeamRow): int { t.id }
  function UserKey(u: UserRow): int { u.id }
  function EquipmentKey(e: EquipmentRow): int { e.id }
  function RequestKey(r: RequestRow): int { r.id }

  // ---------------------------------------------------------------------
  // Constraints

  /** No team other than `except` is called `name` (UNIQUE team_name). */
  predicate NameFree(teams: seq<TeamRow>, name: string, except: int) {
    forall t :: t in teams && t.id != except ==> t.name != name
  }

  /** No user other than `except` has `email` (UNIQUE email). */
  predicate EmailFree(users: seq<UserRow>, email: string, except: int) {
    forall u :: u in users && u.id != except ==> u.email != email
  }

  /** No equipment other than `except` has `serial` (UNIQUE serial_number). */
  predicate SerialFree(equipment: seq<EquipmentRow>, serial: string, except: int) {
    forall e :: e in equipment && e.id != except ==> e.serialNumber != serial
  }

  /** A nullable team reference is NULL or names an existing team. */
  predicate TeamRef(teams: seq<TeamRow>, t: Option<int>) {
    t.None? || HasKey(teams, TeamKey, t.value)
  }

  /** A nullable user reference is NULL or names an existing user. */
  predicate UserRef(users: seq<UserRow>, u: Option<int>) {
    u.None? || HasKey(users, UserKey, u.value)
  }

  /** The four foreign keys of a maintenance request. */
  predicate RequestRefsOk(
    r: RequestRow, teams: seq<TeamRow>, users: seq<UserRow>, equipment: seq<EquipmentRow>)
  {
    && HasKey(equipment, EquipmentKey, r.equipmentId)
    && TeamRef(teams, r.teamId)
    && UserRef(users, r.technicianId)
    && HasKey(users, UserKey, r.createdBy)
  }

  ghost predicate TeamsOk(teams: seq<TeamRow>) {
    && KeysIncreasing(teams, TeamKey)
    && forall t :: t in teams ==> NameFree(teams, t.name, t.id)
  }

  ghost predicate UsersOk(users: seq<UserRow>, teams: seq<TeamRow>) {
    && KeysIncreasing(users, UserKey)
    && forall u :: u in users ==> EmailFree(users, u.email, u.id) && TeamRef(teams, u.teamId)
  }

  ghost predicate EquipmentOk(equipment: seq<EquipmentRow>, teams: seq<TeamRow>) {
    && KeysIncreasing(equipment, EquipmentKey)
    && forall e :: e in equipment ==> SerialFree(equipment, e.serialNumber, e.id) && TeamRef(teams, e.teamId)
  }

  ghost predicate RequestsOk(
    requests: seq<RequestRow>, teams: seq<TeamRow>, users: seq<UserRow>, equipment: seq<EquipmentRow>)
  {
    && KeysIncreasing(requests, RequestKey)
    && forall r :: r in requests ==> RequestRefsOk(r, teams, users, equipment)
  }

  /** Every declared primary key, unique key and foreign key holds. */
  ghost predicate Consistent(
    teams: seq<TeamRow>, users: seq<UserRow>, equipment: seq<EquipmentRow>, requests: seq<RequestRow>)
  {
    && TeamsOk(teams)
    && UsersOk(users, teams)
    && EquipmentOk(equipment, teams)
    && RequestsOk(requests, teams, users, equipment)
  }

  lemma HasKeyGrows<T>(s: seq<T>, t: seq<T>, key: T -> int)
    requires forall x :: x in s ==> x in t
    ensures forall k :: HasKey(s, key, k) ==> HasKey(t, key, k)
  {
  }

  // ---------------------------------------------------------------------
  // Referential actions

  /** DELETE FROM MAINTENANCE_TEAMS WHERE team_id = id. */
  function WithoutTeam(teams: seq<TeamRow>, id: int): (r: seq<TeamRow>)
    ensures forall t :: t in r <==> t in teams && t.id != id
  {
    Filter(teams, (t: TeamRow) => t.id != id)
  }

  /** ON DELETE SET NULL for a row's team_id. */
  function DetachUser(u: UserRow, team: int): UserRow {
    if u.teamId == Some(team) then u.(teamId := None) else u
  }

  function DetachEquipment(e: EquipmentRow, team: int): EquipmentRow {
    if e.teamId == Some(team) then e.(teamId := None) else e
  }

  function DetachRequest(r: RequestRow, team: int): RequestRow {
    if r.teamId == Some(team) then r.(teamId := None) else r
  }

  function DetachUsers(users: seq<UserRow>, team: int): (r: seq<UserRow>)
    ensures |r| == |users|
    ensures forall i :: 0 <= i < |users| ==> r[i] == DetachUser(users[i], team)
  {
    seq(|users|, i requires 0 <= i < |users| => DetachUser(users[i], team))
  }

  function DetachAllEquipment(equipment: seq<EquipmentRow>, team: int): (r: seq<EquipmentRow>)
    ensures |r| == |equipment|
    ensures forall i :: 0 <= i < |equipment| ==> r[i] == DetachEquipment(equipment[i], team)
  {
    seq(|equipment|, i requires 0 <= i < |equipment| => DetachEquipment(equipment[i], team))
  }

  function DetachRequests(requests: seq<RequestRow>, team: int): (r: seq<RequestRow>)
    ensures |r| == |requests|
    ensures forall i :: 0 <= i < |requests| ==> r[i] == DetachRequest(requests[i], team)
  {
    seq(|requests|, i requires 0 <= i < |requests| => DetachRequest(requests[i], team))
  }

  /** DELETE FROM EQUIPMENT WHERE equipment_id = id. */
  function WithoutEquipment(equipment: seq<EquipmentRow>, id: int): (r: seq<EquipmentRow>)
    ensures forall e :: e in r <==> e in equipment && e.id != id
  {
    Filter(equipment, (e: EquipmentRow) => e.id != id)
  }

  /** ON DELETE CASCADE from EQUIPMENT: the requests left after equipment `id` goes. */
  function RequestsWithoutEquipment(requests: seq<RequestRow>, id: int): (r: seq<RequestRow>)
    ensures forall q :: q in r <==> q in requests && q.equipmentId != id
  {
    Filter(requests, (q: RequestRow) => q.equipmentId != id)
  }

  /** DELETE FROM MAINTENANCE_REQUESTS WHERE request_id = id. */
  function WithoutRequest(requests: seq<RequestRow>, id: int): (r: seq<RequestRow>)
    ensures forall q :: q in r <==> q in requests && q.id != id
  {
    Filter(requests, (q: RequestRow) => q.id != id)
  }

  /** DELETE FROM USERS WHERE user_id = id. */
  function WithoutUser(users: seq<UserRow>, id: int): (r: seq<UserRow>)
    ensures forall u :: u in r <==> u in users && u.id != id
  {
    Filter(users, (u: UserRow) => u.id != id)
  }

  function Unassign(r: RequestRow, user: int): RequestRow {
    if r.technicianId == Some(user) then r.(technicianId := None) else r
  }

  /** ON DELETE CASCADE on created_by and ON DELETE SET NULL on technician_id:
      the requests left after user `id` goes. */
  function RequestsWithoutUser(requests: seq<RequestRow>, id: int): (r: seq<RequestRow>)
    ensures |r| <= |requests|
  {
    var kept := Filter(requests, (q: RequestRow) => q.createdBy != id);
    seq(|kept|, i requires 0 <= i < |kept| => Unassign(kept[i], id))
  }

  /** ON UPDATE CURRENT_TIMESTAMP: the row written by an UPDATE whose SET
      clause produced `after` from `before`. */
  function Touch(before: RequestRow, after: RequestRow, now: int): (r: RequestRow)
    ensures r.(updatedAt := after.updatedAt) == after
    ensures r.updatedAt == if after.(updatedAt := before.updatedAt) == before then before.updatedAt else now
  {
    if after.(updatedAt := before.updatedAt) == before then before else after.(updatedAt := now)
  }

  // ---------------------------------------------------------------------
  // The constraints survive each statement the handlers issue

  lemma InsertTeamConsistent(
    teams: seq<TeamRow>, users: seq<UserRow>, equipment: seq<EquipmentRow>, requests: seq<RequestRow>,
    row: TeamRow, next: int)
    requires Consistent(teams, users, equipment, requests) && KeysBelow(teams, TeamKey, next)
    requires row.id == next && NameFree(teams, row.name, row.id)
    ensures Consistent(teams + [row], users, equipment, requests)
    ensures KeysBelow(teams + [row], TeamKey, next + 1)
  {
    var teams' := teams + [row];
    AppendKeysIncreasing(teams, row, TeamKey, next);
    HasKeyGrows(teams, teams', TeamKey);
    forall t | t in teams' ensures NameFree(teams', t.name, t.id) {
      if t != row {
        assert t in teams && t.id < next;
      }
    }
  }

  lemma RenameTeamConsistent(
    teams: seq<TeamRow>, users: seq<UserRow>, equipment: seq<EquipmentRow>, requests: seq<RequestRow>,
    i: nat, name: string)
    requires Consistent(teams, users, equipment, requests)
    requires i < |teams| && NameFree(teams, name, teams[i].id)
    ensures Consistent(teams[i := teams[i].(name := name)], users, equipment, requests)
  {
    var teams' := teams[i := teams[i].(name := name)];
    assert SameKeys(teams, teams', TeamKey);
    SameKeysPreserve(teams, teams', TeamKey);
    forall t | t in teams' ensures NameFree(teams', t.name, t.id) {
      forall u | u in teams' && u.id != t.id ensures u.name != t.name {
        var a :| 0 <= a < |teams'| && teams'[a] == t;
        var b :| 0 <= b < |teams'| && teams'[b] == u;
        assert a != b;
        if a != i {
          assert teams[a] == t && t in teams;
        }
        if b != i {
          assert teams[b] == u && u in teams;
        }
        if a == i {
          assert teams[b].id != teams[i].id;
        }
        if b == i {
          assert teams[a].id != teams[i].id;
        }
      }
    }
  }

  /** A reference that survives a team delete, NULLed when it named that team. */
  lemma DetachedRef(teams: seq<TeamRow>, id: int, t: Option<int>)
    requires TeamRef(teams, t)
    ensures TeamRef(WithoutTeam(teams, id), if t == Some(id) then None else t)
  {
    if t.Some? && t != Some(id) {
      var x :| x in teams && x.id == t.value;
      assert x in WithoutTeam(teams, id);
    }
  }

  lemma DeleteTeamUsersOk(users: seq<UserRow>, teams: seq<TeamRow>, id: int)
    requires UsersOk(users, teams)
    ensures UsersOk(DetachUsers(users, id), WithoutTeam(teams, id))
  {
    var users' := DetachUsers(users, id);
    assert SameKeys(users, users', UserKey);
    SameKeysPreserve(users, users', UserKey);
    forall u | u in users' ensures EmailFree(users', u.email, u.id) && TeamRef(WithoutTeam(teams, id), u.teamId) {
      var a :| 0 <= a < |users'| && users'[a] == u;
      assert users[a] in users;
      DetachedRef(teams, id, users[a].teamId);
      forall v | v in users' && v.id != u.id ensures v.email != u.email {
        var b :| 0 <= b < |users'| && users'[b] == v;
        assert users[b] in users;
      }
    }
  }

  lemma DeleteTeamEquipmentOk(equipment: seq<EquipmentRow>, teams: seq<TeamRow>, id: int)
    requires EquipmentOk(equipment, teams)
    ensures EquipmentOk(DetachAllEquipment(equipment, id), WithoutTeam(teams, id))
  {
    var equipment' := DetachAllEquipment(equipment, id);
    assert SameKeys(equipment, equipment', EquipmentKey);
    SameKeysPreserve(equipment, equipment', EquipmentKey);
    forall e | e in equipment'
      ensures SerialFree(equipment', e.serialNumber, e.id) && TeamRef(WithoutTeam(teams, id), e.teamId)
    {
      var a :| 0 <= a < |equipment'| && equipment'[a] == e;
      assert equipment[a] in equipment;
      DetachedRef(teams, id, equipment[a].teamId);
      forall f | f in equipment' && f.id != e.id ensures f.serialNumber != e.serialNumber {
        var b :| 0 <= b < |equipment'| && equipment'[b] == f;
        assert equipment[b] in equipment;
      }
    }
  }

  lemma DeleteTeamRequestsOk(
    requests: seq<RequestRow>, teams: seq<TeamRow>, users: seq<UserRow>, equipment: seq<EquipmentRow>, id: int)
    requires RequestsOk(requests, teams, users, equipment)
    ensures RequestsOk(DetachRequests(requests, id), WithoutTeam(teams, id),
                       DetachUsers(users, id), DetachAllEquipment(equipment, id))
  {
    var requests' := DetachRequests(requests, id);
    var users' := DetachUsers(users, id);
    var equipment' := DetachAllEquipment(equipment, id);
    assert SameKeys(requests, requests', RequestKey);
    SameKeysPreserve(requests, requests', RequestKey);
    assert SameKeys(users, users', UserKey);
    SameKeysPreserve(users, users', UserKey);
    assert SameKeys(equipment, equipment', EquipmentKey);
    SameKeysPreserve(equipment, equipment', EquipmentKey);
    forall r | r in requests' ensures RequestRefsOk(r, WithoutTeam(teams, id), users', equipment') {
      var a :| 0 <= a < |requests'| && requests'[a] == r;
      assert requests[a] in requests;
      DetachedRef(teams, id, requests[a].teamId);
    }
  }

  lemma DeleteTeamConsistent(
    teams: seq<TeamRow>, users: seq<UserRow>, equipment: seq<EquipmentRow>, requests: seq<RequestRow>,
    id: int)
    requires Consistent(teams, users, equipment, requests)
    ensures Consistent(WithoutTeam(teams, id), DetachUsers(users, id),
                       DetachAllEquipment(equipment, id), DetachRequests(requests, id))
  {
    FilterKeysIncreasing(teams, (t: TeamRow) => t.id != id, TeamKey);
    DeleteTeamUsersOk(users, teams, id);
    DeleteTeamEquipmentOk(equipment, teams, id);
    DeleteTeamRequestsOk(requests, teams, users, equipment, id);
  }

  lemma InsertEquipmentConsistent(
    teams: seq<TeamRow>, users: seq<UserRow>, equipment: seq<EquipmentRow>, requests: seq<RequestRow>,
    row: EquipmentRow, next: int)
    requires Consistent(teams, users, equipment, requests) && KeysBelow(equipment, EquipmentKey, next)
    requires row.id == next && SerialFree(equipment, row.serialNumber, row.id) && TeamRef(teams, row.teamId)
    ensures Consistent(teams, users, equipment + [row], requests)
    ensures KeysBelow(equipment + [row], EquipmentKey, next + 1)
  {
    var equipment' := equipment + [row];
    AppendKeysIncreasing(equipment, row, EquipmentKey, next);
    HasKeyGrows(equipment, equipment', EquipmentKey);
    forall e | e in equipment' ensures SerialFree(equipment', e.serialNumber, e.id) {
      if e != row {
        assert e in equipment && e.id < next;
      }
    }
  }

  lemma UpdateEquipmentConsistent(
    teams: seq<TeamRow>, users: seq<UserRow>, equipment: seq<EquipmentRow>, requests: seq<RequestRow>,
    i: nat, row: EquipmentRow)
    requires Consistent(teams, users, equipment, requests)
    requires i < |equipment| && row.id == equipment[i].id
    requires SerialFree(equipment, row.serialNumber, row.id) && TeamRef(teams, row.teamId)
    ensures Consistent(teams, users, equipment[i := row], requests)
  {
    var equipment' := equipment[i := row];
    assert SameKeys(equipment, equipment', EquipmentKey);
    SameKeysPreserve(equipment, equipment', EquipmentKey);
    forall e | e in equipment' ensures SerialFree(equipment', e.serialNumber, e.id) && TeamRef(teams, e.teamId) {
      var a :| 0 <= a < |equipment'| && equipment'[a] == e;
      if a != i {
        assert equipment[a] in equipment;
      }
      forall f | f in equipment' && f.id != e.id ensures f.serialNumber != e.serialNumber {
        var b :| 0 <= b < |equipment'| && equipment'[b] == f;
        if b != i {
          assert equipment[b] in equipment;
        }
        if a == i {
          assert equipment[b].id != equipment[i].id;
        }
      }
    }
  }

  lemma DeleteEquipmentConsistent(
    teams: seq<TeamRow>, users: seq<UserRow>, equipment: seq<EquipmentRow>, requests: seq<RequestRow>,
    id: int)
    requires Consistent(teams, users, equipment, requests)
    ensures Consistent(teams, users, WithoutEquipment(equipment, id), RequestsWithoutEquipment(requests, id))
  {
    var equipment' := WithoutEquipment(equipment, id);
    FilterKeysIncreasing(equipment, (e: EquipmentRow) => e.id != id, EquipmentKey);
    FilterKeysIncreasing(requests, (q: RequestRow) => q.equipmentId != id, RequestKey);
    forall r | r in RequestsWithoutEquipment(requests, id) ensures HasKey(equipment', EquipmentKey, r.equipmentId) {
      var e :| e in equipment && e.id == r.equipmentId;
      assert e in equipment';
    }
  }

  lemma InsertRequestConsistent(
    teams: seq<TeamRow>, users: seq<UserRow>, equipment: seq<EquipmentRow>, requests: seq<RequestRow>,
    row: RequestRow, next: int)
    requires Consistent(teams, users, equipment, requests) && KeysBelow(requests, RequestKey, next)
    requires row.id == next && RequestRefsOk(row, teams, users, equipment)
    ensures Consistent(teams, users, equipment, requests + [row])
    ensures KeysBelow(requests + [row], RequestKey, next + 1)
  {
    AppendKeysIncreasing(requests, row, RequestKey, next);
  }

  lemma UpdateRequestConsistent(
    teams: seq<TeamRow>, users: seq<UserRow>, equipment: seq<EquipmentRow>, requests: seq<RequestRow>,
    i: nat, row: RequestRow)
    requires Consistent(teams, users, equipment, requests)
    requires i < |requests| && row.id == requests[i].id && RequestRefsOk(row, teams, users, equipment)
    ensures Consistent(teams, users, equipment, requests[i := row])
  {
    var requests' := requests[i := row];
    assert SameKeys(requests, requests', RequestKey);
    SameKeysPreserve(requests, requests', RequestKey);
    forall r | r in requests' ensures RequestRefsOk(r, teams, users, equipment) {
      var a :| 0 <= a < |requests'| && requests'[a] == r;
      if a != i {
        assert requests[a] in requests;
      }
    }
  }

  lemma DeleteRequestConsistent(
    teams: seq<TeamRow>, users: seq<UserRow>, equipment: seq<EquipmentRow>, requests: seq<RequestRow>,
    id: int)
    requires Consistent(teams, users, equipment, requests)
    ensures Consistent(teams, users, equipment, WithoutRequest(requests, id))
  {
    FilterKeysIncreasing(requests, (q: RequestRow) => q.id != id, RequestKey);
  }

  lemma DeleteUserConsistent(
    teams: seq<TeamRow>, users: seq<UserRow>, equipment: seq<EquipmentRow>, requests: seq<RequestRow>,
    id: int)
    requires Consistent(teams, users, equipment, requests)
    ensures Consistent(teams, WithoutUser(users, id), equipment, RequestsWithoutUser(requests, id))
  {
    var users' := WithoutUser(users, id);
    var kept := Filter(requests, (q: RequestRow) => q.createdBy != id);
    var requests' := RequestsWithoutUser(requests, id);
    FilterKeysIncreasing(users, (u: UserRow) => u.id != id, UserKey);
    FilterKeysIncreasing(requests, (q: RequestRow) => q.createdBy != id, RequestKey);
    assert SameKeys(kept, requests', RequestKey);
    SameKeysPreserve(kept, requests', RequestKey);
    forall r | r in requests' ensures RequestRefsOk(r, teams, users', equipment) {
      var a :| 0 <= a < |requests'| && requests'[a] == r;
      var q := kept[a];
      assert q in kept;
      var c :| c in users && c.id == q.createdBy;
      assert c in users';
      if r.technicianId.Some? {
        var t :| t in users && t.id == r.technicianId.value;
        assert t in users';
      }
    }
  }

  // ---------------------------------------------------------------------
  // What the referential actions do

  /** Deleting a team removes only that team row; users, equipment and
      requests keep every row, lose the reference to that team and change
      in nothing else. */
  lemma DeleteTeamDetaches(users: seq<UserRow>, equipment: seq<EquipmentRow>, requests: seq<RequestRow>, id: int)
    ensures |DetachUsers(users, id)| == |users| && |DetachAllEquipment(equipment, id)| == |equipment|
    ensures |DetachRequests(requests, id)| == |requests|
    ensures forall i :: 0 <= i < |users| ==>
      DetachUsers(users, id)[i].teamId != Some(id) && DetachUsers(users, id)[i].(teamId := users[i].teamId) == users[i]
    ensures forall i :: 0 <= i < |equipment| ==>
      DetachAllEquipment(equipment, id)[i].teamId != Some(id)
      && DetachAllEquipment(equipment, id)[i].(teamId := equipment[i].teamId) == equipment[i]
    ensures forall i :: 0 <= i < |requests| ==>
      DetachRequests(requests, id)[i].teamId != Some(id)
      && DetachRequests(requests, id)[i].(teamId := requests[i].teamId) == requests[i]
  {
  }

  /** Deleting a user deletes the requests that user created; a request
      assigned to them but created by someone else survives with no
      technician; every other request is kept unchanged. */
  lemma DeleteUserCascades(requests: seq<RequestRow>, id: int)
    ensures forall r :: r in RequestsWithoutUser(requests, id) ==> r.createdBy != id && r.technicianId != Some(id)
    ensures forall r :: r in requests && r.createdBy != id && r.technicianId != Some(id) ==> r in RequestsWithoutUser(requests, id)
    ensures forall r :: r in requests && r.createdBy != id && r.technicianId == Some(id) ==>
      r.(technicianId := None) in RequestsWithoutUser(requests, id)
  {
    var kept := Filter(requests, (q: RequestRow) => q.createdBy != id);
    var r' := RequestsWithoutUser(requests, id);
    forall r | r in r' ensures r.createdBy != id && r.technicianId != Some(id) {
      var a :| 0 <= a < |r'| && r'[a] == r;
      assert kept[a] in kept;
    }
    forall r | r in requests && r.createdBy != id && r.technicianId != Some(id) ensures r in r' {
      assert r in kept;
      var a :| 0 <= a < |kept| && kept[a] == r;
      assert r'[a] == r;
    }
    forall r | r in requests && r.createdBy != id && r.technicianId == Some(id) ensures r.(technicianId := None) in r' {
      assert r in kept;
      var a :| 0 <= a < |kept| && kept[a] == r;
      assert r'[a] == r.(technicianId := None);
    }
  }

  // ---------------------------------------------------------------------
  // Seed rows (timestamps are the seeding instant `at`)

  function SeedTeams(at: int): seq<TeamRow> {
    [ TeamRow(1, "Electrical Team", at), TeamRow(2, "Mechanical Team", at),
      TeamRow(3, "HVAC Team", at), TeamRow(4, "IT Support Team", at) ]
  }

  function SeedUsers(at: int): seq<UserRow> {
    [ UserRow(1, "Admin User", "admin@gearguard.com", Admin, None, at),
      UserRow(2, "John Doe", "user@gearguard.com", User, None, at),
      UserRow(3, "Mike Technician", "tech1@gearguard.com", Technician, Some(1), at),
      UserRow(4, "Sarah Mechanic", "tech2@gearguard.com", Technician, Some(2), at),
      UserRow(5, "Tom HVAC Expert", "tech3@gearguard.com", Technician, Some(3), at),
      UserRow(6, "Alice IT Support", "tech4@gearguard.com", Technician, Some(4), at),
      UserRow(7, "Jane User", "jane@gearguard.com", User, None, at) ]
  }

  function SeedEquipment(at: int): seq<EquipmentRow> {
    [ EquipmentRow(1, "Generator 5000W", "GEN-001", "Building A - Floor 1", "Operations", Some(1), Some(Active), at),
      EquipmentRow(2, "Air Compressor", "AC-102", "Workshop", "Maintenance", Some(2), Some(Active), at),
      EquipmentRow(3, "Hydraulic Press", "HP-205", "Factory Floor", "Production", Some(2), Some(Active), at),
      EquipmentRow(4, "HVAC Unit - Central", "HVAC-301", "Building B - Roof", "Facilities", Some(3), Some(Active), at),
      EquipmentRow(5, "Server Rack Dell R740", "SRV-401", "Data Center", "IT", Some(4), Some(Active), at),
      EquipmentRow(6, "Forklift Toyota", "FLT-501", "Warehouse", "Logistics", Some(2), Some(Active), at),
      EquipmentRow(7, "CNC Machine", "CNC-601", "Factory Floor", "Production", Some(2), Some(Active), at),
      EquipmentRow(8, "Backup Generator", "GEN-002", "Building A - Basement", "Operations", Some(1), Some(Active), at),
      EquipmentRow(9, "Cooling Tower", "CT-701", "Building C - Roof", "Facilities", Some(3), Some(Active), at),
      EquipmentRow(10, "UPS System", "UPS-801", "Data Center", "IT", Some(4), Some(Active), at) ]
  }

  function SeedRequests(at: int): seq<RequestRow> {
    [ RequestRow(1, "Generator not starting", 1, Some(1), Some(3), Corrective, Some(New),
                 None, None, None, None, 2, at, at),
      RequestRow(2, "Preventive maintenance - Air Compressor", 2, Some(2), Some(4), Preventive, Some(InProgress),
                 Some(20087), None, None, None, 1, at, at),
      RequestRow(3, "Hydraulic Press leaking oil", 3, Some(2), Some(4), Corrective, Some(Repaired),
                 Some(20082), Some(350), Some(45000), Some("Replaced seal and checked pressure levels"), 2, at, at),
      RequestRow(4, "HVAC Unit making noise", 4, Some(3), Some(5), Corrective, Some(InProgress),
                 None, None, None, None, 7, at, at),
      RequestRow(5, "Server Rack temperature alert", 5, Some(4), Some(6), Corrective, Some(New),
                 None, None, None, None, 2, at, at),
      RequestRow(6, "Monthly forklift inspection", 6, Some(2), None, Preventive, Some(New),
                 Some(20093), None, None, None, 1, at, at),
      RequestRow(7, "CNC Machine calibration needed", 7, Some(2), Some(4), Preventive, Some(Repaired),
                 Some(20077), Some(200), Some(20000), Some("Calibrated successfully"), 1, at, at),
      RequestRow(8, "Backup Generator test run", 8, Some(1), Some(3), Preventive, Some(InProgress),
                 Some(20085), None, None, None, 1, at, at) ]
  }

  /** Every request carries its equipment's team. */
  ghost predicate TeamsFollowEquipment(equipment: seq<EquipmentRow>, requests: seq<RequestRow>) {
    forall r, e :: r in requests && e in equipment && e.id == r.equipmentId ==> r.teamId == e.teamId
  }

  /** Every assigned technician is a TECHNICIAN on the request's team. */
  ghost predicate AssigneesOnTeam(users: seq<UserRow>, requests: seq<RequestRow>) {
    forall r, u :: r in requests && u in users && r.technicianId == Some(u.id) ==>
      u.role == Technician && u.teamId == r.teamId
  }

  /** Rows whose ids are 1, 2, 3, ... in order: the ids a fresh
      AUTO_INCREMENT table hands out. */
  lemma DenseKeys<T>(s: seq<T>, key: T -> int)
    requires forall i :: 0 <= i < |s| ==> key(s[i]) == i + 1
    ensures KeysIncreasing(s, key) && KeysBelow(s, key, |s| + 1)
    ensures forall k :: 1 <= k <= |s| ==> HasKey(s, key, k)
  {
    forall k | 1 <= k <= |s| ensures HasKey(s, key, k) {
      assert s[k - 1] in s;
    }
  }

  lemma SeedTeamsOk(at: int)
    ensures TeamsOk(SeedTeams(at)) && KeysBelow(SeedTeams(at), TeamKey, 5)
    ensures forall k :: 1 <= k <= 4 ==> HasKey(SeedTeams(at), TeamKey, k)
  {
    DenseKeys(SeedTeams(at), TeamKey);
  }

  // Each table's constraints from facts about row positions; the seed
  // lemmas below only establish those facts.

  lemma UsersOkByIndex(users: seq<UserRow>, teams: seq<TeamRow>, teamCount: int)
    requires forall i :: 0 <= i < |users| ==> users[i].id == i + 1
    requires forall i, j :: 0 <= i < j < |users| ==> users[i].email != users[j].email
    requires forall k :: 1 <= k <= teamCount ==> HasKey(teams, TeamKey, k)
    requires forall i :: 0 <= i < |users| ==> users[i].teamId.None? || 1 <= users[i].teamId.value <= teamCount
    ensures UsersOk(users, teams)
  {
    DenseKeys(users, UserKey);
    forall u | u in users ensures EmailFree(users, u.email, u.id) && TeamRef(teams, u.teamId) {
      var i :| 0 <= i < |users| && users[i] == u;
      forall v | v in users && v.id != u.id ensures v.email != u.email {
        var j :| 0 <= j < |users| && users[j] == v;
        assert i != j;
      }
    }
  }

  lemma EquipmentOkByIndex(equipment: seq<EquipmentRow>, teams: seq<TeamRow>, teamCount: int)
    requires forall i :: 0 <= i < |equipment| ==> equipment[i].id == i + 1
    requires forall i, j :: 0 <= i < j < |equipment| ==> equipment[i].serialNumber != equipment[j].serialNumber
    requires forall k :: 1 <= k <= teamCount ==> HasKey(teams, TeamKey, k)
    requires forall i :: 0 <= i < |equipment| ==>
      equipment[i].teamId.None? || 1 <= equipment[i].teamId.value <= teamCount
    ensures EquipmentOk(equipment, teams)
  {
    DenseKeys(equipment, EquipmentKey);
    forall e | e in equipment ensures SerialFree(equipment, e.serialNumber, e.id) && TeamRef(teams, e.teamId) {
      var i :| 0 <= i < |equipment| && equipment[i] == e;
      forall f | f in equipment && f.id != e.id ensures f.serialNumber != e.serialNumber {
        var j :| 0 <= j < |equipment| && equipment[j] == f;
        assert i != j;
      }
    }
  }

  lemma RequestsOkByIndex(
    requests: seq<RequestRow>, teams: seq<TeamRow>, users: seq<UserRow>, equipment: seq<EquipmentRow>)
    requires forall i :: 0 <= i < |requests| ==> requests[i].id == i + 1
    requires forall k :: 1 <= k <= |teams| ==> HasKey(teams, TeamKey, k)
    requires forall k :: 1 <= k <= |users| ==> HasKey(users, UserKey, k)
    requires forall k :: 1 <= k <= |equipment| ==> HasKey(equipment, EquipmentKey, k)
    requires forall i :: 0 <= i < |requests| ==>
      && 1 <= requests[i].equipmentId <= |equipment|
      && (requests[i].teamId.None? || 1 <= requests[i].teamId.value <= |teams|)
      && (requests[i].technicianId.None? || 1 <= requests[i].technicianId.value <= |users|)
      && 1 <= requests[i].createdBy <= |users|
    ensures RequestsOk(requests, teams, users, equipment)
  {
    DenseKeys(requests, RequestKey);
    forall r | r in requests ensures RequestRefsOk(r, teams, users, equipment) {
      var i :| 0 <= i < |requests| && requests[i] == r;
    }
  }

  lemma SeedUsersOk(at: int)
    ensures UsersOk(SeedUsers(at), SeedTeams(at)) && KeysBelow(SeedUsers(at), UserKey, 8)
  {
    SeedTeamsOk(at);
    UsersOkByIndex(SeedUsers(at), SeedTeams(at), 4);
    DenseKeys(SeedUsers(at), UserKey);
  }

  lemma SeedEquipmentOk(at: int)
    ensures EquipmentOk(SeedEquipment(at), SeedTeams(at)) && KeysBelow(SeedEquipment(at), EquipmentKey, 11)
  {
    SeedTeamsOk(at);
    EquipmentOkByIndex(SeedEquipment(at), SeedTeams(at), 4);
    DenseKeys(SeedEquipment(at), EquipmentKey);
  }

  lemma SeedRequestsOk(at: int)
    ensures RequestsOk(SeedRequests(at), SeedTeams(at), SeedUsers(at), SeedEquipment(at))
    ensures KeysBelow(SeedRequests(at), RequestKey, 9)
  {
    var teams, users, equipment := SeedTeams(at), SeedUsers(at), SeedEquipment(at);
    DenseKeys(teams, TeamKey);
    DenseKeys(users, UserKey);
    DenseKeys(equipment, EquipmentKey);
    RequestsOkByIndex(SeedRequests(at), teams, users, equipment);
    DenseKeys(SeedRequests(at), RequestKey);
  }

  /** The seed tables satisfy every constraint and leave AUTO_INCREMENT at
      the next free id of each table. */
  lemma SeedConsistent(at: int)
    ensures Consistent(SeedTeams(at), SeedUsers(at), SeedEquipment(at), SeedRequests(at))
    ensures KeysBelow(SeedTeams(at), TeamKey, 5) && KeysBelow(SeedUsers(at), UserKey, 8)
    ensures KeysBelow(SeedEquipment(at), EquipmentKey, 11) && KeysBelow(SeedRequests(at), RequestKey, 9)
  {
    SeedTeamsOk(at);
    SeedUsersOk(at);
    SeedEquipmentOk(at);
    SeedRequestsOk(at);
  }

  lemma FollowByIndex(equipment: seq<EquipmentRow>, requests: seq<RequestRow>)
    requires forall j :: 0 <= j < |equipment| ==> equipment[j].id == j + 1
    requires forall i :: 0 <= i < |requests| ==>
      1 <= requests[i].equipmentId <= |equipment| && equipment[requests[i].equipmentId - 1].teamId == requests[i].teamId
    ensures TeamsFollowEquipment(equipment, requests)
  {
    forall r, e | r in requests && e in equipment && e.id == r.equipmentId ensures r.teamId == e.teamId {
      var i :| 0 <= i < |requests| && requests[i] == r;
      var j :| 0 <= j < |equipment| && equipment[j] == e;
    }
  }

  lemma AssigneesByIndex(users: seq<UserRow>, requests: seq<RequestRow>)
    requires forall j :: 0 <= j < |users| ==> users[j].id == j + 1
    requires forall i :: 0 <= i < |requests| && requests[i].technicianId.Some? ==>
      var t := requests[i].technicianId.value;
      1 <= t <= |users| && users[t - 1].role == Technician && users[t - 1].teamId == requests[i].teamId
    ensures AssigneesOnTeam(users, requests)
  {
    forall r, u | r in requests && u in users && r.technicianId == Some(u.id)
      ensures u.role == Technician && u.teamId == r.teamId
    {
      var i :| 0 <= i < |requests| && requests[i] == r;
      var j :| 0 <= j < |users| && users[j] == u;
    }
  }

  /** In the seed state each request carries its equipment's team. */
  lemma SeedRequestsOnEquipmentTeam(at: int)
    ensures TeamsFollowEquipment(SeedEquipment(at), SeedRequests(at))
  {
    FollowByIndex(SeedEquipment(at), SeedRequests(at));
  }

  /** In the seed state each assigned technician is a TECHNICIAN of the
      request's team. */
  lemma SeedAssigneesOnTeam(at: int)
    ensures AssigneesOnTeam(SeedUsers(at), SeedRequests(at))
  {
    AssigneesByIndex(SeedUsers(at), SeedRequests(at));
  }

  // ---------------------------------------------------------------------
  // Request statuses

  /** The number of rows whose status is `s` (`None`: NULL). */
  function CountStatus(rows: seq<RequestRow>, s: Option<RequestStatus>): (n: nat)
    ensures n <= |rows|
  {
    if rows == [] then 0
    else (if rows[0].status == s then 1 else 0) + CountStatus(rows[1..], s)
  }

  /** Every row has exactly one status or none: the statuses partition the
      rows, the NULL ones included. */
  lemma {:induction false} StatusPartition(rows: seq<RequestRow>)
    ensures |rows| == CountStatus(rows, Some(New)) + CountStatus(rows, Some(InProgress))
                     + CountStatus(rows, Some(Repaired)) + CountStatus(rows, Some(Scrap))
                     + CountStatus(rows, None)
  {
    if rows != [] {
      StatusPartition(rows[1..]);
      match rows[0].status
      case None =>
      case Some(New) =>
      case Some(InProgress) =>
      case Some(Repaired) =>
      case Some(Scrap) =>
    }
  }

  /** CountStatus agrees with the rows a WHERE status = s clause keeps. */
  lemma {:induction false} CountStatusCounts(rows: seq<RequestRow>, s: Option<RequestStatus>)
    ensures CountStatus(rows, s) == |Filter(rows, (r: RequestRow) => r.status == s)|
  {
    if rows != [] {
      CountStatusCounts(rows[1..], s);
    }
  }
}
