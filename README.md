# GearGuard maintenance tracker — a Dafny model of its request lifecycle and access policy

GearGuard is an Express/MySQL back end with a React front end. It keeps four
tables: maintenance teams, users (ADMIN, USER or TECHNICIAN, optionally on a
team), equipment (optionally owned by a team) and maintenance requests raised
against equipment. Every call is authenticated by a bearer token. The route
files then admit a fixed set of roles per operation, and the controllers scope
what each role sees and may change. This project models that core:

- `schema.dfy` (module `Schema`) covers the MySQL schema of
  `backend/config/init-db.js`:
  - the row types and enum domains;
  - the unique and foreign keys as a `Consistent` predicate;
  - the delete actions (CASCADE and SET NULL) as table functions;
  - `ON UPDATE CURRENT_TIMESTAMP` as `Touch`;
  - the seed rows, with proofs that they satisfy every constraint.
- `store.dfy` (module `Store`) is the database: a class `Database` whose
  fields are the four tables and their AUTO_INCREMENT counters.
  - Each method is one SQL statement. It either applies in full or, when
    MySQL would reject it (NOT NULL, UNIQUE or FOREIGN KEY), fails and leaves
    every table unchanged.
  - Every method keeps `Valid()`, which is all constraints plus counters
    above every id.
- `auth.dfy` (module `Auth`) is `protect` and `authorize`. This covers
  header parsing (`startsWith('Bearer')`, then `split(' ')[1]`) and the
  401 outcomes. Token verification is an oracle `verify: string -> Option<int>`.
- The controllers:
  - `requests.dfy` (`RequestController`);
  - `equipment.dfy` (`EquipmentController`);
  - `teams.dfy` (`TeamController`);
  - `dashboard.dfy` (`DashboardController`).

  Reads are functions of the tables and the caller's identity; the
  mutating handlers are methods on the `Database`. Results are `Ok(data)` or
  `Err(e)` with `e` one of 400, 401, 403, 404 or 500.
- `routes.dfy` (module `Routes`) holds the four route tables, Express's
  dispatch, the `protect`→`authorize` gate and a `Serve` method. `Serve` runs
  one call through its chain into the controller.
- `kanban.dfy` (module `Kanban`) is the Kanban page of the front end:
  - grouping the requests into status columns;
  - the `request-<id>` draggable ids and their parsing;
  - the local update after a card is dropped.
- `common.dfy` (module `Common`) holds the shared helpers:
  - `Option`, `Result`, and `Field` (a JSON member that is absent, `null` or
    given);
  - JavaScript falsiness;
  - keyed lookup and replace over a table;
  - filtering, a stable insertion sort, and lexicographic string order.

Conventions:
- Tables are sequences in primary-key order; ids are strictly increasing, as
  AUTO_INCREMENT hands them out.
- Timestamps and dates are integers, and `now` (CURRENT_TIMESTAMP) and
  `today` (CURDATE()) are parameters.
- DECIMAL(10,2) columns are integers in hundredths.
- A nullable column is an `Option`.

Where the documented behaviour and the code differ, the model follows the
code:
- A duplicate serial number on equipment create is answered with 400, not
  409 (`equipmentController.js:93-98`).
- `updated_at` is refreshed only when an UPDATE changes some column. That is
  MySQL's `ON UPDATE CURRENT_TIMESTAMP`; it is not "any mutation"
  (`init-db.js:90`).
- The request `status` column is nullable, and `updateRequest` writes an
  explicit JSON `null`. A request can therefore end up with no status. The
  dashboard buckets then add up to less than the total
  (`DashboardController.BucketsSumToTotal`), and the Kanban board shows the
  request in no column (`Kanban.ColumnsPartition`).

## Model

| member | source | states |
|---|---|---|
| Schema.WithoutTeam | backend/controllers/teamController.js:154 | deleting a team keeps exactly the team rows with another id |
| Schema.DetachUsers | backend/config/init-db.js:53 | ON DELETE SET NULL on users.team_id: same length, each user detached from the deleted team |
| Schema.DetachAllEquipment | backend/config/init-db.js:69 | ON DELETE SET NULL on equipment.team_id: same length, each row detached |
| Schema.DetachRequests | backend/config/init-db.js:92 | ON DELETE SET NULL on requests.team_id: same length, each row detached |
| Schema.WithoutEquipment | backend/controllers/equipmentController.js:196 | deleting equipment keeps exactly the equipment rows with another id |
| Schema.RequestsWithoutEquipment | backend/config/init-db.js:91 | ON DELETE CASCADE from equipment: exactly the requests for other equipment remain |
| Schema.WithoutRequest | backend/controllers/requestController.js:310 | deleting a request keeps exactly the rows with another id |
| Schema.WithoutUser | backend/config/init-db.js:44-55 | deleting a user keeps exactly the users with another id |
| Schema.RequestsWithoutUser | backend/config/init-db.js:93-94 | deleting a user never adds requests; which rows survive, and how, is stated by `DeleteUserCascades` |
| Schema.Touch | backend/config/init-db.js:90 | ON UPDATE CURRENT_TIMESTAMP: every column but updated_at is the updated row's; updated_at becomes `now` exactly when some column changed |
| Schema.InsertTeamConsistent | backend/config/init-db.js:35-39 | inserting a team with the next id and an unused name keeps every constraint and the counter bound |
| Schema.RenameTeamConsistent | backend/config/init-db.js:37 | renaming a team to a name no other team has keeps every constraint |
| Schema.DetachedRef | backend/config/init-db.js:53-92 | a team reference NULLed when it named the deleted team still refers to an existing team or NULL |
| Schema.DeleteTeamUsersOk | backend/config/init-db.js:48-53 | after a team delete, users keep unique ids and emails and valid team references |
| Schema.DeleteTeamEquipmentOk | backend/config/init-db.js:63-69 | after a team delete, equipment keeps unique ids and serials and valid team references |
| Schema.DeleteTeamRequestsOk | backend/config/init-db.js:91-94 | after a team delete, every request still satisfies its four foreign keys |
| Schema.DeleteTeamConsistent | backend/config/init-db.js:53-92 | deleting a team with its SET NULL actions keeps every constraint |
| Schema.InsertEquipmentConsistent | backend/config/init-db.js:60-70 | inserting equipment with the next id, an unused serial and a valid team keeps every constraint and the counter bound |
| Schema.UpdateEquipmentConsistent | backend/config/init-db.js:63-69 | overwriting an equipment row with a serial no other row has and a valid team keeps every constraint |
| Schema.DeleteEquipmentConsistent | backend/config/init-db.js:91 | deleting equipment together with its cascaded requests keeps every constraint |
| Schema.InsertRequestConsistent | backend/config/init-db.js:76-95 | inserting a request with the next id and valid references keeps every constraint and the counter bound |
| Schema.UpdateRequestConsistent | backend/config/init-db.js:91-94 | overwriting a request row with valid references keeps every constraint |
| Schema.DeleteRequestConsistent | backend/config/init-db.js:76-77 | deleting a request keeps every constraint |
| Schema.DeleteUserConsistent | backend/config/init-db.js:93-94 | deleting a user with its CASCADE and SET NULL actions keeps every constraint |
| Schema.DeleteTeamDetaches | backend/config/init-db.js:53-92 | deleting a team deletes no user, equipment or request row; each loses only its reference to that team |
| Schema.DeleteUserCascades | backend/config/init-db.js:93-94 | after deleting a user, no request was created by or is assigned to them; a request they did not create but were assigned to survives with technician_id NULL; every request not involving them survives unchanged |
| Schema.SeedTeamsOk | backend/config/init-db.js:104-110 | the seeded teams have ids 1-4 and distinct names |
| Schema.UsersOkByIndex | backend/config/init-db.js:44-55 | users with increasing ids, pairwise distinct emails and valid team references satisfy the user constraints |
| Schema.EquipmentOkByIndex | backend/config/init-db.js:59-71 | equipment with increasing ids, pairwise distinct serials and valid teams satisfies the equipment constraints |
| Schema.RequestsOkByIndex | backend/config/init-db.js:75-96 | requests with increasing ids and valid references satisfy the request constraints |
| Schema.SeedUsersOk | backend/config/init-db.js:117-126 | the seeded users satisfy the user constraints, ids below 8 |
| Schema.SeedEquipmentOk | backend/config/init-db.js:130-142 | the seeded equipment satisfies the equipment constraints, ids below 11 |
| Schema.SeedRequestsOk | backend/config/init-db.js:146-158 | the seeded requests satisfy every foreign key, ids below 9 |
| Schema.SeedConsistent | backend/config/init-db.js:104-158 | the whole seed state satisfies every declared constraint |
| Schema.FollowByIndex | backend/config/init-db.js:146-158 | requests whose team is their equipment's team, checked row by row |
| Schema.AssigneesByIndex | backend/config/init-db.js:146-158 | requests whose assignee is a technician of their team, checked row by row |
| Schema.SeedRequestsOnEquipmentTeam | backend/config/init-db.js:150-157 | in the seed state each request's team is its equipment's team |
| Schema.SeedAssigneesOnTeam | backend/config/init-db.js:150-157 | in the seed state each assigned technician is a TECHNICIAN of the request's team |
| Schema.CountStatus | backend/config/init-db.js:83 | the number of rows with a given status is at most the number of rows |
| Schema.StatusPartition | backend/config/init-db.js:83 | the four statuses and NULL partition the request rows |
| Schema.CountStatusCounts | backend/controllers/dashboardController.js:21-24 | counting a status equals the size of the WHERE status = s selection |
| Store.Apply | backend/controllers/requestController.js:218-245 | each of the seven SET columns takes the body member when given, becomes NULL for an explicit null (subject, NOT NULL, is kept) and is kept when absent; id, equipment, team, type, creator and timestamps never change; an empty SET changes nothing |
| Store.Database.constructor | backend/config/init-db.js:104-158 | the initial database is the seed state with counters 5, 8, 11 and 9 |
| Store.Database.InsertTeam | backend/controllers/teamController.js:94-97 | the insert succeeds iff the name is unused; it appends the row with the next id, or changes nothing |
| Store.Database.RenameTeam | backend/controllers/teamController.js:125-128 | no row matched: success and no change; otherwise success iff the name is non-NULL and unused by another team, and then only that row's name changes |
| Store.Database.DeleteTeam | backend/controllers/teamController.js:154 | the team goes and users, equipment and requests are detached from it |
| Store.Database.InsertEquipment | backend/controllers/equipmentController.js:100-104 | succeeds iff the serial is unused and the team exists or is NULL; appends the row with the next id |
| Store.Database.UpdateEquipment | backend/controllers/equipmentController.js:149-154 | no row: no change; otherwise succeeds iff the text columns are non-NULL, the serial is unused elsewhere and the team is valid, and then only that row is replaced |
| Store.Database.DeleteEquipment | backend/controllers/equipmentController.js:196 | the equipment row goes and its requests cascade |
| Store.Database.InsertRequest | backend/controllers/requestController.js:137-142 | succeeds iff the references are valid; appends a NEW row with created_at = updated_at = now |
| Store.Database.UpdateRequest | backend/controllers/requestController.js:254-259 | no row: no change; otherwise succeeds iff subject is not set NULL and the references stay valid, and then only that row becomes `Touch(row, Apply(row, patch), now)` |
| Store.Database.DeleteRequest | backend/controllers/requestController.js:310 | the request row goes |
| Store.Database.DeleteUser | backend/config/init-db.js:93-94 | the user goes and the requests become `RequestsWithoutUser`: their own requests cascade, their other assignments are NULLed (`DeleteUserCascades`) |
| Auth.IdentityOf | backend/middleware/auth.js:26-29 | the attached identity is the user's id, name, email, role and team |
| Auth.Split | backend/middleware/auth.js:10 | `split(' ')` yields at least one piece and no piece contains the separator |
| Auth.SplitJoin | backend/middleware/auth.js:10 | joining the pieces with the separator gives the header back |
| Auth.SplitAfterPiece | backend/middleware/auth.js:10 | a separator-free piece followed by the separator splits off whole |
| Auth.SplitWhole | backend/middleware/auth.js:10 | a separator-free string splits into itself |
| Auth.BearerToken | backend/middleware/auth.js:9-14 | a token only comes from a header starting with "Bearer" and is a non-empty, space-free piece |
| Auth.BearerRoundTrip | backend/middleware/auth.js:9-11 | the header "Bearer " + token yields the token |
| Auth.NoSecondPiece | backend/middleware/auth.js:9-19 | "Bearer" without a second piece, or with an empty second piece, yields no token |
| Auth.Protect | backend/middleware/auth.js:5-47 | every failure is 401; success iff there is a token, it verifies and the user exists; the identity is that user's |
| Auth.Authorize | backend/middleware/auth.js:50-59 | passes iff the caller's role is listed, otherwise 403 |
| RequestController.GetAllRequests | backend/controllers/requestController.js:24-38 | the listing is a permutation of the caller's scope |
| RequestController.GetAllRequestsListsScope | backend/controllers/requestController.js:24-36 | a row is listed iff it is in the table and visible to the caller (USER: created it; TECHNICIAN with a team: that team; otherwise all), newest first |
| RequestController.GetAllRequestsUnscoped | backend/controllers/requestController.js:29-34 | an ADMIN, and a TECHNICIAN without a team, get every row |
| RequestController.CreatedNotBeforeTotal | backend/controllers/requestController.js:36 | ORDER BY created_at DESC is a total preorder |
| RequestController.GetRequest | backend/controllers/requestController.js:78-97 | 404 iff absent; 403 iff a USER who is not the creator; any other caller reads an existing row |
| RequestController.CreateRequest | backend/controllers/requestController.js:110-142 | 400 when subject, equipment or type is missing, then 404 for unknown equipment, with the table unchanged; otherwise one NEW row is appended with the equipment's team, the caller as creator and no technician |
| RequestController.UpdateRequest | backend/controllers/requestController.js:177-259 | 404, then 403 on a technician's team mismatch, then 400 for an empty body, each leaving the table unchanged; otherwise only that row changes, and only in the named columns |
| RequestController.DeleteRequest | backend/controllers/requestController.js:296-310 | 404 with no change when absent; otherwise exactly that row is removed |
| RequestController.DeleteRequestRemovesOne | backend/controllers/requestController.js:310 | deleting a present request removes that one row and keeps the others in order |
| RequestController.AssignPatch | backend/controllers/requestController.js:333-365 | a technician assigns themself and sets IN_PROGRESS; anyone else names technician_id only, and never the status |
| RequestController.AssignTechnician | backend/controllers/requestController.js:328-365 | a technician gets 404 for a missing and 403 for another team's request, with no change; an admin's assignment to a missing id changes nothing and succeeds; otherwise that row alone is updated |
| RequestController.SelfAssignEffect | backend/controllers/requestController.js:355-358 | self-assignment changes only technician_id, status and updated_at |
| RequestController.AdminAssignEffect | backend/controllers/requestController.js:359-365 | an admin's assignment writes exactly the body's technician_id (NULL when missing), keeps the status and changes no other column but updated_at |
| EquipmentController.GetAllEquipment | backend/controllers/equipmentController.js:15-23 | the listing is a permutation of the caller's scope |
| EquipmentController.GetAllEquipmentListsScope | backend/controllers/equipmentController.js:15-21 | a TECHNICIAN with a team sees exactly that team's equipment, everyone else all of it, newest first |
| EquipmentController.EquipmentCreatedNotBeforeTotal | backend/controllers/equipmentController.js:21 | ORDER BY created_at DESC is a total preorder |
| EquipmentController.GetEquipment | backend/controllers/equipmentController.js:44-61 | 404 iff absent; no role check |
| EquipmentController.CreateEquipment | backend/controllers/equipmentController.js:75-104 | 400 for a missing field or a taken serial, with no change; otherwise the row gets team NULL when falsy and status ACTIVE when missing |
| EquipmentController.Overwritten | backend/controllers/equipmentController.js:149-154 | the full replace keeps id and created_at, writes the body's name, serial, location, department and status, writes a truthy team as given and NULLs a falsy one |
| EquipmentController.UpdateEquipment | backend/controllers/equipmentController.js:132-154 | 404 when absent; otherwise all six columns are replaced, or the statement fails with 500 and no change |
| EquipmentController.DeleteEquipment | backend/controllers/equipmentController.js:182-196 | 404 with no change when absent; otherwise the row and its requests go |
| EquipmentController.DeleteEquipmentCascades | backend/config/init-db.js:91 | no request refers to deleted equipment, and every other request survives |
| TeamController.TechniciansOf | backend/controllers/teamController.js:52-55 | exactly the TECHNICIAN users of the team |
| TeamController.EquipmentOf | backend/controllers/teamController.js:58-61 | exactly the team's equipment |
| TeamController.SummaryCountsDistinct | backend/controllers/teamController.js:11-15 | COUNT(DISTINCT id) equals the number of technicians and of equipment rows |
| TeamController.NameNotAfterTotal | backend/controllers/teamController.js:17 | ORDER BY team_name is a total preorder |
| TeamController.Summaries | backend/controllers/teamController.js:13-16 | one summary per team row, in table order |
| TeamController.GetAllTeams | backend/controllers/teamController.js:8-18 | the listing is a permutation of the summaries |
| TeamController.GetAllTeamsOnePerTeam | backend/controllers/teamController.js:8-17 | one entry per team, each with that team's own counts, ordered by name |
| TeamController.GetTeam | backend/controllers/teamController.js:39-69 | 404 iff absent; members are exactly its technicians and equipment exactly its equipment |
| TeamController.CreateTeam | backend/controllers/teamController.js:83-108 | 400 with no change for a missing or empty name; otherwise success iff the name is unused |
| TeamController.UpdateTeam | backend/controllers/teamController.js:121-138 | no existence check: a missing team gives success with no data; otherwise only that team's name changes, or 500 |
| TeamController.DeleteTeam | backend/controllers/teamController.js:152-159 | always success; the team is gone and nothing else is deleted |
| DashboardController.Bucket | backend/controllers/dashboardController.js:21-24 | a SUM(CASE ...) bucket is NULL iff there are no rows, else the status count |
| DashboardController.Counts | backend/controllers/dashboardController.js:18-26 | total is the number of scoped rows and each of the four columns is its status's bucket |
| DashboardController.BucketsSumToTotal | backend/controllers/dashboardController.js:18-91 | the four buckets plus the NULL-status rows add up to total; without NULL statuses the buckets alone do |
| DashboardController.TeamCountsOf | backend/controllers/dashboardController.js:50-58 | total is the number of team rows and new, in_progress and repaired are their buckets |
| DashboardController.TeamBucketsBounded | backend/controllers/dashboardController.js:50-59 | with no scrap bucket, new + in_progress + repaired ≤ total |
| DashboardController.TaskCountsOf | backend/controllers/dashboardController.js:62-70 | total counts the tasks, in_progress is the IN_PROGRESS bucket and completed the REPAIRED bucket, NULL iff there are no tasks |
| DashboardController.CostSumAppend | backend/controllers/dashboardController.js:34-37 | the cost sum splits over concatenation |
| DashboardController.CostSumOfUncosted | backend/controllers/dashboardController.js:37 | rows without a cost sum to 0 (`|| 0`) |
| DashboardController.OverdueRequests | backend/controllers/dashboardController.js:40-46 | exactly the rows dated before today whose status is neither REPAIRED, SCRAP nor NULL |
| DashboardController.ActiveEquipment | backend/controllers/dashboardController.js:12-15 | exactly the ACTIVE equipment |
| DashboardController.TeamRequests | backend/controllers/dashboardController.js:57-133 | exactly the rows whose team equals the caller's under SQL equality (NULL matches nothing) |
| DashboardController.AssignedTo | backend/controllers/dashboardController.js:68-74 | exactly the rows assigned to the caller |
| DashboardController.CreatedBy | backend/controllers/dashboardController.js:89-130 | exactly the rows the caller created |
| DashboardController.GetDashboardStats | backend/controllers/dashboardController.js:6-92 | each role gets exactly its own stats shape: admin gets active equipment, `Counts` of all requests, teams, cost and overdue rows; a technician `TeamCountsOf` their team, `TaskCountsOf` their tasks and their tasks' cost; a user `Counts` of their own requests |
| DashboardController.TeamlessTechnicianCounts | backend/controllers/dashboardController.js:50-58 | a technician without a team has zero team requests and NULL buckets |
| DashboardController.ActivityScope | backend/controllers/dashboardController.js:129-135 | USER: own rows; TECHNICIAN: team rows; ADMIN: all |
| DashboardController.UpdatedNotBeforeTotal | backend/controllers/dashboardController.js:137 | ORDER BY updated_at DESC is a total preorder |
| DashboardController.GetRecentActivity | backend/controllers/dashboardController.js:137 | ten rows, or the whole scope when it has fewer |
| DashboardController.RecentActivityIsNewestOfScope | backend/controllers/dashboardController.js:129-137 | the feed has min(10, scope size) rows drawn from the scope, newest first, the whole scope when it has ten rows or fewer, and no omitted row is newer than a shown one |
| Routes.DispatchFinds | backend/routes/requests.js:13-22 | dispatch finds a chain iff a route has the verb and path, and the chain is that route's |
| Routes.DispatchFirst | backend/routes/requests.js:13-22 | the first route with a verb and path is the one dispatched |
| Routes.Caller | backend/middleware/auth.js:9-36 | the authenticated user exists iff there is a token, it verifies, and the id names a user |
| Routes.LookupUnique | backend/middleware/auth.js:26-39 | under unique ids the looked-up user is the only one with that id |
| Routes.Gate | backend/middleware/auth.js:5-59 | 401 unless authenticated; then 403 unless the route admits the role; otherwise the user's identity |
| Routes.EveryRouteProtected | backend/routes/requests.js:13-22 | every route of every router runs `protect` first |
| Routes.RoutesUnambiguous | backend/routes/equipment.js:12-19 | no router has two routes with the same verb and path |
| Routes.RequestsPolicy | backend/routes/requests.js:13-22 | list, create and get open to every role; update and assign ADMIN or TECHNICIAN; delete ADMIN only |
| Routes.CatalogPolicy | backend/routes/teams.js:12-19 | equipment and teams: reads open to every role; create, update and delete ADMIN only |
| Routes.DashboardPolicy | backend/routes/dashboard.js:6-7 | both dashboard reads are open to every role and no non-GET route exists |
| Routes.ChainOf | backend/routes/requests.js:13-22 | every endpoint has a route, and its chain runs `protect` |
| Routes.Serve | backend/routes/requests.js:13-22 | an unauthenticated call gets 401 and a call whose role is not admitted gets 403, both without reaching the handler or changing the database; reads change nothing |
| Kanban.ColumnsAreTheStatuses | frontend/src/pages/Kanban.js:8-13 | the columns are the four statuses, each once |
| Kanban.Column | frontend/src/pages/Kanban.js:73 | a column holds exactly the requests with its status, as many as CountStatus says |
| Kanban.ColumnKeepsOrder | frontend/src/pages/Kanban.js:72-75 | a column keeps the fetched order: the column of a concatenation is the two columns in turn, and a single request forms its own column or none |
| Kanban.ColumnsPartition | frontend/src/pages/Kanban.js:72-75 | a request is in the column of its status and no other; with NULL status it is in none |
| Kanban.BoardCountsEveryRequest | frontend/src/pages/Kanban.js:72-95 | the column sizes plus the NULL-status requests add up to all requests |
| Kanban.Digit | frontend/src/pages/Kanban.js:108 | a digit prints as '0'..'9' |
| Kanban.Decimal | frontend/src/pages/Kanban.js:48-108 | `toString()` of an id is a non-empty digit string, longer for ids ≥ 10 |
| Kanban.DecimalInjective | frontend/src/pages/Kanban.js:48 | distinct ids print differently |
| Kanban.DraggableId | frontend/src/pages/Kanban.js:108 | the draggable id is the prefix followed by the printed id |
| Kanban.IndexOf | frontend/src/pages/Kanban.js:40 | the first occurrence of a pattern at or after a position, or none |
| Kanban.ReplaceFirst | frontend/src/pages/Kanban.js:40 | with no occurrence the string is unchanged; otherwise the first occurrence (per `IndexOf`) is replaced and the text before and after it is kept |
| Kanban.DraggableIdRoundTrip | frontend/src/pages/Kanban.js:40-108 | stripping "request-" from a card's draggable id gives back its printed id |
| Kanban.Moved | frontend/src/pages/Kanban.js:46-52 | the update keeps the number of requests |
| Kanban.DropMovesOneCard | frontend/src/pages/Kanban.js:40-52 | dropping request n's card sets that request's status, changes no other request, and puts the card in the destination column |
| Kanban.Board.constructor | frontend/src/pages/Kanban.js:17-28 | the board holds the fetched requests |
| Kanban.Board.GroupedRequests | frontend/src/pages/Kanban.js:72-95 | every status has its column of exactly its requests, and each displayed count is that status's count |
| Kanban.Board.HandleDragEnd | frontend/src/pages/Kanban.js:36-57 | no destination or a failed API call leaves the board unchanged; otherwise the matching requests take the destination status |

## Left out

- SQL text and joins are not modelled. The joined display columns (equipment,
  team, technician and creator names) are left out. Under the foreign keys
  the inner joins drop no row, so the listings are filters of the request
  table.
- The read-back after each insert or update, and the interleaving of
  statements from concurrent calls, are left out. Each handler's statements
  run atomically here.
- `jwt.verify` and bcrypt are left out: verification is the `verify` oracle.
  A token whose payload has no `id` behaves like one naming no user.
- Express and server plumbing (`backend/server.js`, the connection pool, the
  404 and error middleware, how path ids are parsed) is not part of this
  model. Path ids are integers, and a non-numeric id is not modelled.
- Enum values are constructors. An unknown status, role or type string, which
  MySQL would reject or store as '', is not modelled.
- Strings compare by code point. MySQL's case- and accent-insensitive
  collation (for unique names and ORDER BY team_name) is not modelled.
- Column widths are not modelled. An over-long name, email, serial number or
  subject (VARCHAR(100), VARCHAR(200)) makes MySQL's statement fail (500) in
  strict mode, but the model's statement succeeds.
- DECIMAL(10,2) values are unbounded integers in hundredths: the range limit
  and MySQL's rounding of extra decimals are not modelled.
- The NOT NULL rejections assume MySQL's strict SQL mode. In non-strict mode
  an UPDATE that sets a NOT NULL column to NULL stores `''` (or 0) and
  succeeds with a warning; that mode is not modelled.
- AUTO_INCREMENT values consumed by failed inserts are not modelled: a failed
  insert leaves the counter as it was.
- `updated_at` is not refreshed when a team delete NULLs a request's team,
  since MySQL does not fire ON UPDATE for referential actions.
- The front-end pages other than the Kanban board, drag-and-drop mechanics
  and toasts are not part of this model, and neither is the API call's
  request text; its outcome is the `apiOk` parameter.
- Exact order among rows with equal timestamps or names is not modelled:
  listings are stated as sorted permutations of their scope.
- Schema.RequestsWithoutUser: its own contract states only that no row is
  added; the rows kept, unchanged or with technician_id NULLed, are stated by
  `DeleteUserCascades`.
- Kanban.Moved: its own contract states only the length; the effect on each
  request is stated by `DropMovesOneCard`.
