/** The four routers of backend/routes: for each (verb, path) the middleware
    chain Express runs — `protect`, then `authorize(...roles)` when the route
    has one, then the controller handler — and a dispatcher that runs a call
    through its chain against the store. */
module Routes {
  import opened Common
  import opened Schema
  import opened Store
  import opened Auth
  import RequestController
  import EquipmentController
  import TeamController
  import DashboardController

  datatype Verb = Get | Post | Put | Delete

  /** The path patterns, relative to where each router is mounted. */
  datatype Path = RootPath | IdPath | AssignPath | StatsPath | ActivityPath

  /** The routers, mounted at /api/requests, /api/equipment, /api/teams and
      /api/dashboard. */
  datatype Mount = RequestsApi | EquipmentApi | TeamsApi | DashboardApi

  /** The controller function a chain ends in. */
  datatype Handler =
    | GetAllRequests | CreateRequest | GetRequest | UpdateRequest | DeleteRequest | AssignTechnician
    | GetAllEquipment | CreateEquipment | GetEquipment | UpdateEquipment | DeleteEquipment
    | GetAllTeams | CreateTeam | GetTeam | UpdateTeam | DeleteTeam
    | GetDashboardStats | GetRecentActivity

  /** A middleware chain: whether `protect` runs, the roles of the
      `authorize` step if there is one, and the handler. */
  datatype Chain = Chain(protect: bool, roles: Option<seq<Role>>, handler: Handler)

  datatype Route = Route(verb: Verb, path: Path, chain: Chain)

  /** backend/routes/requests.js */
  const RequestRoutes: seq<Route> := [
    Route(Get, RootPath, Chain(true, None, GetAllRequests)),
    Route(Post, RootPath, Chain(true, None, CreateRequest)),
    Route(Get, IdPath, Chain(true, None, GetRequest)),
    Route(Put, IdPath, Chain(true, Some([Admin, Technician]), UpdateRequest)),
    Route(Delete, IdPath, Chain(true, Some([Admin]), DeleteRequest)),
    Route(Put, AssignPath, Chain(true, Some([Admin, Technician]), AssignTechnician))
  ]

  /** backend/routes/equipment.js */
  const EquipmentRoutes: seq<Route> := [
    Route(Get, RootPath, Chain(true, None, GetAllEquipment)),
    Route(Post, RootPath, Chain(true, Some([Admin]), CreateEquipment)),
    Route(Get, IdPath, Chain(true, None, GetEquipment)),
    Route(Put, IdPath, Chain(true, Some([Admin]), UpdateEquipment)),
    Route(Delete, IdPath, Chain(true, Some([Admin]), DeleteEquipment))
  ]

  /** backend/routes/teams.js */
  const TeamRoutes: seq<Route> := [
    Route(Get, RootPath, Chain(true, None, GetAllTeams)),
    Route(Post, RootPath, Chain(true, Some([Admin]), CreateTeam)),
    Route(Get, IdPath, Chain(true, None, GetTeam)),
    Route(Put, IdPath, Chain(true, Some([Admin]), UpdateTeam)),
    Route(Delete, IdPath, Chain(true, Some([Admin]), DeleteTeam))
  ]

  /** backend/routes/dashboard.js */
  const DashboardRoutes: seq<Route> := [
    Route(Get, StatsPath, Chain(true, None, GetDashboardStats)),
    Route(Get, ActivityPath, Chain(true, None, GetRecentActivity))
  ]

  function RoutesOf(m: Mount): seq<Route> {
    match m
    case RequestsApi => RequestRoutes
    case EquipmentApi => EquipmentRoutes
    case TeamsApi => TeamRoutes
    case DashboardApi => DashboardRoutes
  }

  // ---------------------------------------------------------------------
  // Dispatch and the gate

  /** Express's choice: the chain of the first route with this verb and
      path, or none (the request falls through to the 404 handler). */
  function Dispatch(routes: seq<Route>, verb: Verb, path: Path): (c: Option<Chain>)
  {
    if routes == [] then None
    else if routes[0].verb == verb && routes[0].path == path then Some(routes[0].chain)
    else Dispatch(routes[1..], verb, path)
  }

  /** Dispatch finds a route exactly when one has the verb and path, and
      the chain it yields is that route's. */
  lemma {:induction false} DispatchFinds(routes: seq<Route>, verb: Verb, path: Path)
    ensures Dispatch(routes, verb, path).None? <==>
      forall i :: 0 <= i < |routes| ==> routes[i].verb != verb || routes[i].path != path
    ensures Dispatch(routes, verb, path).Some? ==>
      exists i :: 0 <= i < |routes| && routes[i] == Route(verb, path, Dispatch(routes, verb, path).value)
  {
    if routes != [] && !(routes[0].verb == verb && routes[0].path == path) {
      DispatchFinds(routes[1..], verb, path);
      var c := Dispatch(routes, verb, path);
      if c.Some? {
        var i :| 0 <= i < |routes[1..]| && routes[1..][i] == Route(verb, path, c.value);
        assert routes[i + 1] == routes[1..][i];
      }
      forall i | 0 < i < |routes| ensures routes[i] == routes[1..][i - 1] {
      }
    }
  }

  /** Dispatch picks a route when no earlier route has its verb and path. */
  lemma {:induction false} DispatchFirst(routes: seq<Route>, i: nat)
    requires i < |routes|
    requires forall j :: 0 <= j < i ==> routes[j].verb != routes[i].verb || routes[j].path != routes[i].path
    ensures Dispatch(routes, routes[i].verb, routes[i].path) == Some(routes[i].chain)
  {
    if i > 0 {
      DispatchFirst(routes[1..], i - 1);
    }
  }

  /** The `authorize` step lets the role through, or there is none. */
  predicate Admits(c: Chain, role: Role) {
    c.roles.None? || role in c.roles.value
  }

  /** A route exists for the verb and path and lets the role reach its
      handler once authenticated. */
  predicate Admitted(m: Mount, verb: Verb, path: Path, role: Role) {
    var c := Dispatch(RoutesOf(m), verb, path);
    c.Some? && Admits(c.value, role)
  }

  /** The user a request's Authorization header authenticates, if any. */
  function Caller(users: seq<UserRow>, header: Option<string>, verify: string -> Option<int>): (u: Option<UserRow>)
    ensures u.Some? <==>
      && BearerToken(header).Some?
      && verify(BearerToken(header).value).Some?
      && HasKey(users, UserKey, verify(BearerToken(header).value).value)
    ensures u.Some? ==> u.value in users && u.value.id == verify(BearerToken(header).value).value
  {
    match BearerToken(header)
    case None => None
    case Some(token) =>
      match verify(token)
      case None => None
      case Some(id) => Lookup(users, UserKey, id)
  }

  /** Under unique keys the row found is the only row with that key. */
  lemma LookupUnique<T>(s: seq<T>, key: T -> int, x: T)
    requires KeysIncreasing(s, key) && x in s
    ensures Lookup(s, key, key(x)) == Some(x)
  {
    FindUnique(s, key, key(x), x);
  }

  /** Running a chain up to its handler: 401 unless the header authenticates
      a user, then 403 unless the chain admits that user's role, and
      otherwise the user's identity for the handler. */
  method Gate(users: seq<UserRow>, header: Option<string>, verify: string -> Option<int>, c: Chain)
    returns (r: Result<Identity>)
    requires c.protect
    requires KeysIncreasing(users, UserKey)
    ensures Caller(users, header, verify).None? ==> r == Err(Unauthorized)
    ensures Caller(users, header, verify).Some? ==>
      var u := Caller(users, header, verify).value;
      r == if Admits(c, u.role) then Ok(IdentityOf(u)) else Err(Forbidden)
  {
    var who := Protect(users, header, verify);
    if who.Err? {
      return Err(Unauthorized);
    }
    var u :| u in users && u.id == verify(BearerToken(header).value).value && who.value == IdentityOf(u);
    LookupUnique(users, UserKey, u);
    if c.roles.Some? {
      var allowed := Authorize(c.roles.value, who.value);
      if allowed.Err? {
        return Err(allowed.error);
      }
    }
    r := who;
  }

  // ---------------------------------------------------------------------
  // The policy the tables state

  /** Every route of every router authenticates first. */
  lemma EveryRouteProtected(m: Mount)
    ensures forall i :: 0 <= i < |RoutesOf(m)| ==> RoutesOf(m)[i].chain.protect
  {
  }

  /** No router has two routes for the same verb and path, so the first
      match is the only one. */
  lemma RoutesUnambiguous(m: Mount)
    ensures forall i, j :: 0 <= i < j < |RoutesOf(m)| ==>
      RoutesOf(m)[i].verb != RoutesOf(m)[j].verb || RoutesOf(m)[i].path != RoutesOf(m)[j].path
  {
  }

  /** Requests: listing, creating and reading are open to every role;
      updating and assigning to ADMIN and TECHNICIAN; deleting to ADMIN. */
  lemma RequestsPolicy(role: Role)
    ensures Admitted(RequestsApi, Get, RootPath, role)
    ensures Admitted(RequestsApi, Post, RootPath, role)
    ensures Admitted(RequestsApi, Get, IdPath, role)
    ensures Admitted(RequestsApi, Put, IdPath, role) <==> role == Admin || role == Technician
    ensures Admitted(RequestsApi, Delete, IdPath, role) <==> role == Admin
    ensures Admitted(RequestsApi, Put, AssignPath, role) <==> role == Admin || role == Technician
  {
    DispatchFirst(RequestRoutes, 0);
    DispatchFirst(RequestRoutes, 1);
    DispatchFirst(RequestRoutes, 2);
    DispatchFirst(RequestRoutes, 3);
    DispatchFirst(RequestRoutes, 4);
    DispatchFirst(RequestRoutes, 5);
  }

  /** Equipment and teams: reads are open to every role, and every write is
      ADMIN-only. */
  lemma CatalogPolicy(m: Mount, role: Role)
    requires m == EquipmentApi || m == TeamsApi
    ensures Admitted(m, Get, RootPath, role) && Admitted(m, Get, IdPath, role)
    ensures Admitted(m, Post, RootPath, role) <==> role == Admin
    ensures Admitted(m, Put, IdPath, role) <==> role == Admin
    ensures Admitted(m, Delete, IdPath, role) <==> role == Admin
  {
    var routes := RoutesOf(m);
    DispatchFirst(routes, 0);
    DispatchFirst(routes, 1);
    DispatchFirst(routes, 2);
    DispatchFirst(routes, 3);
    DispatchFirst(routes, 4);
  }

  /** The dashboard has two reads, open to every role, and nothing else. */
  lemma DashboardPolicy(role: Role)
    ensures Admitted(DashboardApi, Get, StatsPath, role)
    ensures Admitted(DashboardApi, Get, ActivityPath, role)
    ensures forall v, p :: Dispatch(DashboardRoutes, v, p).Some? ==> v == Get
  {
    forall v, p | Dispatch(DashboardRoutes, v, p).Some? ensures v == Get {
      DispatchFinds(DashboardRoutes, v, p);
    }
  }

  // ---------------------------------------------------------------------
  // Serving a call

  /** A call to one endpoint with the parameters its handler reads. */
  datatype Call =
    | RequestsIndex
    | RequestsCreate(newRequest: RequestController.NewRequestBody)
    | RequestsShow(id: int)
    | RequestsUpdate(id: int, patch: RequestPatch)
    | RequestsDestroy(id: int)
    | RequestsAssign(id: int, technicianId: Option<int>)
    | EquipmentIndex
    | EquipmentCreate(equipmentBody: EquipmentController.EquipmentBody)
    | EquipmentShow(id: int)
    | EquipmentUpdate(id: int, equipmentBody: EquipmentController.EquipmentBody)
    | EquipmentDestroy(id: int)
    | TeamsIndex
    | TeamsCreate(teamName: Option<string>)
    | TeamsShow(id: int)
    | TeamsUpdate(id: int, teamName: Option<string>)
    | TeamsDestroy(id: int)
    | DashboardStats(today: int)
    | DashboardActivity

  datatype Endpoint = Endpoint(mount: Mount, verb: Verb, path: Path)

  function EndpointOf(c: Call): Endpoint {
    match c
    case RequestsIndex => Endpoint(RequestsApi, Get, RootPath)
    case RequestsCreate(_) => Endpoint(RequestsApi, Post, RootPath)
    case RequestsShow(_) => Endpoint(RequestsApi, Get, IdPath)
    case RequestsUpdate(_, _) => Endpoint(RequestsApi, Put, IdPath)
    case RequestsDestroy(_) => Endpoint(RequestsApi, Delete, IdPath)
    case RequestsAssign(_, _) => Endpoint(RequestsApi, Put, AssignPath)
    case EquipmentIndex => Endpoint(EquipmentApi, Get, RootPath)
    case EquipmentCreate(_) => Endpoint(EquipmentApi, Post, RootPath)
    case EquipmentShow(_) => Endpoint(EquipmentApi, Get, IdPath)
    case EquipmentUpdate(_, _) => Endpoint(EquipmentApi, Put, IdPath)
    case EquipmentDestroy(_) => Endpoint(EquipmentApi, Delete, IdPath)
    case TeamsIndex => Endpoint(TeamsApi, Get, RootPath)
    case TeamsCreate(_) => Endpoint(TeamsApi, Post, RootPath)
    case TeamsShow(_) => Endpoint(TeamsApi, Get, IdPath)
    case TeamsUpdate(_, _) => Endpoint(TeamsApi, Put, IdPath)
    case TeamsDestroy(_) => Endpoint(TeamsApi, Delete, IdPath)
    case DashboardStats(_) => Endpoint(DashboardApi, Get, StatsPath)
    case DashboardActivity => Endpoint(DashboardApi, Get, ActivityPath)
  }

  /** The chain a call runs through: every endpoint has a route. */
  function ChainOf(c: Call): (ch: Chain)
    ensures Dispatch(RoutesOf(EndpointOf(c).mount), EndpointOf(c).verb, EndpointOf(c).path) == Some(ch)
    ensures ch.protect
  {
    Dispatch(RoutesOf(EndpointOf(c).mount), EndpointOf(c).verb, EndpointOf(c).path).value
  }

  /** The GET endpoints. */
  predicate IsRead(c: Call) {
    EndpointOf(c).verb == Get
  }

  /** What a handler sends back in `data` (or `stats`). */
  datatype Payload =
    | RequestList(requests: seq<RequestRow>)
    | RequestItem(request: RequestRow)
    | AssignedItem(assignment: Option<RequestRow>)
    | EquipmentList(equipment: seq<EquipmentRow>)
    | EquipmentItem(item: EquipmentRow)
    | TeamList(teams: seq<TeamController.TeamSummary>)
    | TeamItem(detail: TeamController.TeamDetail)
    | CreatedTeam(created: TeamRow)
    | UpdatedTeam(updated: Option<TeamRow>)
    | StatsItem(stats: DashboardController.Stats)
    | ActivityList(activity: seq<RequestRow>)
    | NoData

  function MapResult<A, B>(x: Result<A>, f: A -> B): (r: Result<B>)
    ensures r.Ok? <==> x.Ok?
    ensures x.Err? ==> r == Err(x.error)
  {
    match x
    case Ok(v) => Ok(f(v))
    case Err(e) => Err(e)
  }

  /** One call through its chain: a caller who is not authenticated gets
      401 and one whose role the route does not admit gets 403, and in
      both cases the handler is not reached and nothing changes; a read
      changes nothing either. */
  method Serve(db: Database, header: Option<string>, verify: string -> Option<int>, call: Call, now: int)
    returns (r: Result<Payload>)
    requires db.Valid()
    modifies db`teams, db`users, db`equipment, db`requests, db`nextTeamId, db`nextEquipmentId, db`nextRequestId
    ensures db.Valid()
    ensures Caller(old(db.users), header, verify).None? ==> r == Err(Unauthorized) && unchanged(db)
    ensures Caller(old(db.users), header, verify).Some? &&
            !Admits(ChainOf(call), Caller(old(db.users), header, verify).value.role) ==>
      r == Err(Forbidden) && unchanged(db)
    ensures IsRead(call) ==> unchanged(db)
  {
    var g := Gate(db.users, header, verify, ChainOf(call));
    if g.Err? {
      return Err(g.error);
    }
    var who := g.value;
    match call
    case RequestsIndex =>
      r := Ok(RequestList(RequestController.GetAllRequests(db.requests, who)));
    case RequestsCreate(body) =>
      var x := RequestController.CreateRequest(db, who, body, now);
      r := MapResult(x, (v: RequestRow) => RequestItem(v));
    case RequestsShow(id) =>
      r := MapResult(RequestController.GetRequest(db.requests, who, id), (v: RequestRow) => RequestItem(v));
    case RequestsUpdate(id, patch) =>
      var x := RequestController.UpdateRequest(db, who, id, patch, now);
      r := MapResult(x, (v: RequestRow) => RequestItem(v));
    case RequestsDestroy(id) =>
      var x := RequestController.DeleteRequest(db, id);
      r := MapResult(x, (v: ()) => NoData);
    case RequestsAssign(id, technicianId) =>
      var x := RequestController.AssignTechnician(db, who, id, technicianId, now);
      r := MapResult(x, (v: Option<RequestRow>) => AssignedItem(v));
    case EquipmentIndex =>
      r := Ok(EquipmentList(EquipmentController.GetAllEquipment(db.equipment, who)));
    case EquipmentCreate(body) =>
      var x := EquipmentController.CreateEquipment(db, body, now);
      r := MapResult(x, (v: EquipmentRow) => EquipmentItem(v));
    case EquipmentShow(id) =>
      r := MapResult(EquipmentController.GetEquipment(db.equipment, id), (v: EquipmentRow) => EquipmentItem(v));
    case EquipmentUpdate(id, body) =>
      var x := EquipmentController.UpdateEquipment(db, id, body);
      r := MapResult(x, (v: EquipmentRow) => EquipmentItem(v));
    case EquipmentDestroy(id) =>
      var x := EquipmentController.DeleteEquipment(db, id);
      r := MapResult(x, (v: ()) => NoData);
    case TeamsIndex =>
      r := Ok(TeamList(TeamController.GetAllTeams(db.teams, db.users, db.equipment)));
    case TeamsCreate(name) =>
      var x := TeamController.CreateTeam(db, name, now);
      r := MapResult(x, (v: TeamRow) => CreatedTeam(v));
    case TeamsShow(id) =>
      r := MapResult(TeamController.GetTeam(db.teams, db.users, db.equipment, id),
                     (v: TeamController.TeamDetail) => TeamItem(v));
    case TeamsUpdate(id, name) =>
      var x := TeamController.UpdateTeam(db, id, name);
      r := MapResult(x, (v: Option<TeamRow>) => UpdatedTeam(v));
    case TeamsDestroy(id) =>
      var x := TeamController.DeleteTeam(db, id);
      r := MapResult(x, (v: ()) => NoData);
    case DashboardStats(today) =>
      r := Ok(StatsItem(DashboardController.GetDashboardStats(db.teams, db.equipment, db.requests, who, today)));
    case DashboardActivity =>
      r := Ok(ActivityList(DashboardController.GetRecentActivity(db.requests, who)));
  }
}
