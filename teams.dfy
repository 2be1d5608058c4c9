/** The maintenance-team handlers of backend/controllers/teamController.js. */
module TeamController {
  import opened Common
  import opened Schema
  import opened Store

  /** A team with the number of its technicians and of its equipment. */
  datatype TeamSummary = TeamSummary(team: TeamRow, technicianCount: nat, equipmentCount: nat)

  /** A team with its technicians and its equipment. */
  datatype TeamDetail = TeamDetail(team: TeamRow, members: seq<UserRow>, equipment: seq<EquipmentRow>)

  /** The TECHNICIAN users whose team is `id`. */
  function TechniciansOf(users: seq<UserRow>, id: int): (r: seq<UserRow>)
    ensures forall u :: u in r <==> u in users && u.teamId == Some(id) && u.role == Technician
  {
    Filter(users, (u: UserRow) => u.teamId == Some(id) && u.role == Technician)
  }

  /** The equipment whose team is `id`. */
  function EquipmentOf(equipment: seq<EquipmentRow>, id: int): (r: seq<EquipmentRow>)
    ensures forall e :: e in r <==> e in equipment && e.teamId == Some(id)
  {
    Filter(equipment, (e: EquipmentRow) => e.teamId == Some(id))
  }

  function Summarize(t: TeamRow, users: seq<UserRow>, equipment: seq<EquipmentRow>): TeamSummary {
    TeamSummary(t, |TechniciansOf(users, t.id)|, |EquipmentOf(equipment, t.id)|)
  }

  /** COUNT(DISTINCT ...) over the LEFT JOINs: the number of distinct user
      ids and equipment ids, which under unique keys is the number of rows. */
  lemma SummaryCountsDistinct(t: TeamRow, users: seq<UserRow>, equipment: seq<EquipmentRow>)
    requires KeysIncreasing(users, UserKey) && KeysIncreasing(equipment, EquipmentKey)
    ensures Summarize(t, users, equipment).technicianCount == |KeySet(TechniciansOf(users, t.id), UserKey)|
    ensures Summarize(t, users, equipment).equipmentCount == |KeySet(EquipmentOf(equipment, t.id), EquipmentKey)|
  {
    FilterKeysIncreasing(users, (u: UserRow) => u.teamId == Some(t.id) && u.role == Technician, UserKey);
    DistinctKeysCount(TechniciansOf(users, t.id), UserKey);
    FilterKeysIncreasing(equipment, (e: EquipmentRow) => e.teamId == Some(t.id), EquipmentKey);
    DistinctKeysCount(EquipmentOf(equipment, t.id), EquipmentKey);
  }

  /** ORDER BY team_name. */
  predicate NameNotAfter(a: TeamSummary, b: TeamSummary) {
    LexLe(a.team.name, b.team.name)
  }

  lemma NameNotAfterTotal()
    ensures TotalPreorder(NameNotAfter)
  {
    forall a: TeamSummary, b: TeamSummary ensures NameNotAfter(a, b) || NameNotAfter(b, a) {
      LexLeTotal(a.team.name, b.team.name);
    }
    forall a: TeamSummary, b: TeamSummary, c: TeamSummary | NameNotAfter(a, b) && NameNotAfter(b, c)
      ensures NameNotAfter(a, c)
    {
      LexLeTransitive(a.team.name, b.team.name, c.team.name);
    }
  }

  /** GROUP BY team_id: one summary per team row. */
  function Summaries(teams: seq<TeamRow>, users: seq<UserRow>, equipment: seq<EquipmentRow>): (r: seq<TeamSummary>)
    ensures |r| == |teams|
    ensures forall i :: 0 <= i < |teams| ==> r[i] == Summarize(teams[i], users, equipment)
  {
    seq(|teams|, i requires 0 <= i < |teams| => Summarize(teams[i], users, equipment))
  }

  /** GET /api/teams. */
  function GetAllTeams(teams: seq<TeamRow>, users: seq<UserRow>, equipment: seq<EquipmentRow>): (r: seq<TeamSummary>)
    ensures multiset(r) == multiset(Summaries(teams, users, equipment))
  {
    SortBy(Summaries(teams, users, equipment), NameNotAfter)
  }

  /** The listing has one entry per team, each with that team's counts, in
      team-name order. */
  lemma GetAllTeamsOnePerTeam(teams: seq<TeamRow>, users: seq<UserRow>, equipment: seq<EquipmentRow>)
    ensures |GetAllTeams(teams, users, equipment)| == |teams|
    ensures forall t :: t in teams ==> Summarize(t, users, equipment) in GetAllTeams(teams, users, equipment)
    ensures forall s :: s in GetAllTeams(teams, users, equipment) ==>
      s.team in teams && s == Summarize(s.team, users, equipment)
    ensures SortedBy(GetAllTeams(teams, users, equipment), NameNotAfter)
  {
    var all := Summaries(teams, users, equipment);
    var listed := GetAllTeams(teams, users, equipment);
    assert |listed| == |multiset(listed)| == |multiset(all)| == |all|;
    forall t | t in teams ensures Summarize(t, users, equipment) in listed {
      var i :| 0 <= i < |teams| && teams[i] == t;
      assert all[i] in multiset(all);
    }
    forall s | s in listed ensures s.team in teams && s == Summarize(s.team, users, equipment) {
      assert s in multiset(all);
      var i :| 0 <= i < |all| && all[i] == s;
    }
    NameNotAfterTotal();
    SortBySorted(all, NameNotAfter);
  }

  /** GET /api/teams/:id: 404 when absent; otherwise the team with exactly
      its technicians and exactly its equipment. */
  function GetTeam(teams: seq<TeamRow>, users: seq<UserRow>, equipment: seq<EquipmentRow>, id: int)
    : (r: Result<TeamDetail>)
    ensures r.Err? <==> !HasKey(teams, TeamKey, id)
    ensures r.Err? ==> r.error == NotFound
    ensures r.Ok? ==> r.value.team in teams && r.value.team.id == id
    ensures r.Ok? ==> forall u :: u in r.value.members <==> u in users && u.teamId == Some(id) && u.role == Technician
    ensures r.Ok? ==> forall e :: e in r.value.equipment <==> e in equipment && e.teamId == Some(id)
  {
    match Lookup(teams, TeamKey, id)
    case None => Err(NotFound)
    case Some(t) => Ok(TeamDetail(t, TechniciansOf(users, id), EquipmentOf(equipment, id)))
  }

  /** POST /api/teams: 400 for a missing or empty name; a name already in
      use is refused by the UNIQUE key (500). */
  method CreateTeam(db: Database, name: Option<string>, now: int) returns (r: Result<TeamRow>)
    requires db.Valid()
    modifies db`teams, db`nextTeamId
    ensures db.Valid()
    ensures Blank(name) ==> r == Err(BadRequest)
    ensures !Blank(name) ==> (r.Ok? <==> forall t :: t in old(db.teams) ==> t.name != name.value)
    ensures r.Ok? ==> r.value == TeamRow(old(db.nextTeamId), name.value, now) && db.teams == old(db.teams) + [r.value]
    ensures r.Err? ==> db.teams == old(db.teams) && db.nextTeamId == old(db.nextTeamId)
    ensures r.Err? ==> r.error in {BadRequest, Internal}
  {
    if Blank(name) {
      return Err(BadRequest);
    }
    var ok, id := db.InsertTeam(name.value, now);
    if ok {
      r := Ok(TeamRow(id, name.value, now));
    } else {
      r := Err(Internal);
    }
  }

  /** PUT /api/teams/:id: there is no existence check, so a missing team is
      a success that reads back nothing. A missing name (NULL) or a name in
      use by another team is refused by the database (500). */
  method UpdateTeam(db: Database, id: int, name: Option<string>) returns (r: Result<Option<TeamRow>>)
    requires db.Valid()
    modifies db`teams
    ensures db.Valid()
    ensures Lookup(old(db.teams), TeamKey, id).None? ==> r == Ok(None) && db.teams == old(db.teams)
    ensures Lookup(old(db.teams), TeamKey, id).Some? ==>
      var t := Lookup(old(db.teams), TeamKey, id).value;
      && (r.Ok? <==> name.Some? && forall u :: u in old(db.teams) && u.id != id ==> u.name != name.value)
      && (r.Ok? ==> r.value == Some(t.(name := name.value))
                    && db.teams == Replace(old(db.teams), TeamKey, t.(name := name.value)))
      && (r.Err? ==> r.error == Internal && db.teams == old(db.teams))
  {
    var ok := db.RenameTeam(id, name);
    if !ok {
      return Err(Internal);
    }
    r := Ok(Lookup(db.teams, TeamKey, id));
  }

  /** DELETE /api/teams/:id always succeeds; other tables keep their rows
      and lose their reference to the team. */
  method DeleteTeam(db: Database, id: int) returns (r: Result<()>)
    requires db.Valid()
    modifies db`teams, db`users, db`equipment, db`requests
    ensures db.Valid()
    ensures r.Ok?
    ensures !HasKey(db.teams, TeamKey, id)
    ensures db.teams == WithoutTeam(old(db.teams), id) && db.users == DetachUsers(old(db.users), id)
    ensures db.equipment == DetachAllEquipment(old(db.equipment), id)
    ensures db.requests == DetachRequests(old(db.requests), id)
  {
    db.DeleteTeam(id);
    r := Ok(());
  }
}
