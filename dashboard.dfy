/** The dashboard handlers of backend/controllers/dashboardController.js:
    role-scoped counts and sums over the tables, and the ten most recently
    updated requests. `today` (CURDATE()) is a parameter. */
module DashboardController {
  import opened Common
  import opened Schema
  import opened Auth

  /** COUNT(*) and the four SUM(CASE WHEN status = ... THEN 1 ELSE 0 END)
      columns. A SUM over no rows is NULL, so each bucket is optional. */
  datatype StatusCounts = StatusCounts(
    total: nat, newRequests: Option<nat>, inProgress: Option<nat>, repaired: Option<nat>, scrap: Option<nat>)

  /** A technician's team counts: there is no scrap bucket. */
  datatype TeamCounts = TeamCounts(total: nat, newRequests: Option<nat>, inProgress: Option<nat>, repaired: Option<nat>)

  /** A technician's own tasks; `completed` counts REPAIRED only. */
  datatype TaskCounts = TaskCounts(total: nat, inProgress: Option<nat>, completed: Option<nat>)

  /** The `stats` object for each role. Costs are in hundredths. */
  datatype Stats =
    | AdminStats(totalEquipment: nat, requests: StatusCounts, totalTeams: nat, totalCost: int, overdueRequests: nat)
    | TechnicianStats(teamRequests: TeamCounts, myTasks: TaskCounts, totalCost: int)
    | UserStats(myRequests: StatusCounts)

  // ---------------------------------------------------------------------
  // Aggregates

  /** SUM(CASE WHEN status = s THEN 1 ELSE 0 END): NULL over no rows. */
  function Bucket(rows: seq<RequestRow>, s: RequestStatus): (b: Option<nat>)
    ensures b.None? <==> rows == []
    ensures b.Some? ==> b.value == CountStatus(rows, Some(s))
  {
    if rows == [] then None else Some(CountStatus(rows, Some(s)))
  }

  /** `x || 0` on a bucket. */
  function OrZero(b: Option<nat>): nat {
    if b.Some? then b.value else 0
  }

  function Counts(rows: seq<RequestRow>): (c: StatusCounts)
    ensures c.total == |rows|
    ensures c.newRequests == Bucket(rows, New) && c.inProgress == Bucket(rows, InProgress)
    ensures c.repaired == Bucket(rows, Repaired) && c.scrap == Bucket(rows, Scrap)
  {
    StatusCounts(|rows|, Bucket(rows, New), Bucket(rows, InProgress), Bucket(rows, Repaired), Bucket(rows, Scrap))
  }

  /** The four buckets add up to the total, short by exactly the rows whose
      status is NULL. */
  lemma BucketsSumToTotal(rows: seq<RequestRow>)
    ensures OrZero(Counts(rows).newRequests) + OrZero(Counts(rows).inProgress) + OrZero(Counts(rows).repaired)
            + OrZero(Counts(rows).scrap) + CountStatus(rows, None) == Counts(rows).total
    ensures (forall r :: r in rows ==> r.status.Some?) ==>
      OrZero(Counts(rows).newRequests) + OrZero(Counts(rows).inProgress) + OrZero(Counts(rows).repaired)
      + OrZero(Counts(rows).scrap) == Counts(rows).total
  {
    StatusPartition(rows);
    CountStatusCounts(rows, None);
    if forall r :: r in rows ==> r.status.Some? {
      FilterNone(rows, (r: RequestRow) => r.status == None);
    }
  }

  function TeamCountsOf(rows: seq<RequestRow>): (c: TeamCounts)
    ensures c.total == |rows|
    ensures c.newRequests == Bucket(rows, New) && c.inProgress == Bucket(rows, InProgress)
    ensures c.repaired == Bucket(rows, Repaired)
  {
    TeamCounts(|rows|, Bucket(rows, New), Bucket(rows, InProgress), Bucket(rows, Repaired))
  }

  /** Without a scrap bucket the technician's team buckets may fall short
      of the total, never above it. */
  lemma TeamBucketsBounded(rows: seq<RequestRow>)
    ensures OrZero(TeamCountsOf(rows).newRequests) + OrZero(TeamCountsOf(rows).inProgress)
            + OrZero(TeamCountsOf(rows).repaired) <= TeamCountsOf(rows).total
  {
    StatusPartition(rows);
  }

  function TaskCountsOf(rows: seq<RequestRow>): (c: TaskCounts)
    ensures c.total == |rows|
    ensures c.inProgress == Bucket(rows, InProgress)
    ensures c.completed == Bucket(rows, Repaired)
    ensures c.completed.None? <==> rows == []
    ensures c.completed.Some? ==> c.completed.value == CountStatus(rows, Some(Repaired))
  {
    TaskCounts(|rows|, Bucket(rows, InProgress), Bucket(rows, Repaired))
  }

  /** SUM(cost_estimation): the total of the non-NULL costs. */
  function CostSum(rows: seq<RequestRow>): int {
    if rows == [] then 0
    else (if rows[0].costEstimation.Some? then rows[0].costEstimation.value else 0) + CostSum(rows[1..])
  }

  /** The cost total splits over any division of the rows, and rows with no
      cost add nothing. */
  lemma {:induction false} CostSumAppend(a: seq<RequestRow>, b: seq<RequestRow>)
    ensures CostSum(a + b) == CostSum(a) + CostSum(b)
  {
    if a == [] {
      assert a + b == b;
    } else {
      CostSumAppend(a[1..], b);
      assert (a + b)[0] == a[0];
      assert (a + b)[1..] == a[1..] + b;
      assert CostSum(a + b) == (if a[0].costEstimation.Some? then a[0].costEstimation.value else 0) + CostSum(a[1..] + b);
    }
  }

  lemma {:induction false} CostSumOfUncosted(rows: seq<RequestRow>)
    requires forall r :: r in rows ==> r.costEstimation.None?
    ensures CostSum(rows) == 0
  {
    if rows != [] {
      CostSumOfUncosted(rows[1..]);
    }
  }

  /** scheduled_date < CURDATE() AND status NOT IN ('REPAIRED', 'SCRAP'):
      a NULL date or a NULL status makes the condition fail. */
  predicate Overdue(r: RequestRow, today: int) {
    && r.scheduledDate.Some? && r.scheduledDate.value < today
    && r.status.Some? && r.status.value != Repaired && r.status.value != Scrap
  }

  function OverdueRequests(requests: seq<RequestRow>, today: int): (r: seq<RequestRow>)
    ensures forall x :: x in r <==> x in requests && Overdue(x, today)
  {
    Filter(requests, (x: RequestRow) => Overdue(x, today))
  }

  function ActiveEquipment(equipment: seq<EquipmentRow>): (r: seq<EquipmentRow>)
    ensures forall e :: e in r <==> e in equipment && e.status == Some(Active)
  {
    Filter(equipment, (e: EquipmentRow) => e.status == Some(Active))
  }

  /** `team_id = ?` with SQL equality: a NULL on either side matches nothing. */
  predicate SqlEq(a: Option<int>, b: Option<int>) {
    a.Some? && b.Some? && a.value == b.value
  }

  function TeamRequests(requests: seq<RequestRow>, team: Option<int>): (r: seq<RequestRow>)
    ensures forall x :: x in r <==> x in requests && SqlEq(x.teamId, team)
  {
    Filter(requests, (x: RequestRow) => SqlEq(x.teamId, team))
  }

  function AssignedTo(requests: seq<RequestRow>, user: int): (r: seq<RequestRow>)
    ensures forall x :: x in r <==> x in requests && x.technicianId == Some(user)
  {
    Filter(requests, (x: RequestRow) => x.technicianId == Some(user))
  }

  function CreatedBy(requests: seq<RequestRow>, user: int): (r: seq<RequestRow>)
    ensures forall x :: x in r <==> x in requests && x.createdBy == user
  {
    Filter(requests, (x: RequestRow) => x.createdBy == user)
  }

  // ---------------------------------------------------------------------
  // The handlers

  /** GET /api/dashboard/stats. */
  function GetDashboardStats(
    teams: seq<TeamRow>, equipment: seq<EquipmentRow>, requests: seq<RequestRow>, who: Identity, today: int)
    : (s: Stats)
    ensures who.role == Admin <==> s.AdminStats?
    ensures who.role == Technician <==> s.TechnicianStats?
    ensures who.role == User <==> s.UserStats?
    ensures s.AdminStats? ==>
      && s.totalEquipment == |ActiveEquipment(equipment)|
      && s.requests == Counts(requests) && s.totalTeams == |teams|
      && s.totalCost == CostSum(requests)
      && s.overdueRequests == |OverdueRequests(requests, today)|
    ensures s.TechnicianStats? ==>
      && s.teamRequests == TeamCountsOf(TeamRequests(requests, who.teamId))
      && s.myTasks == TaskCountsOf(AssignedTo(requests, who.userId))
      && s.totalCost == CostSum(AssignedTo(requests, who.userId))
    ensures s.UserStats? ==> s.myRequests == Counts(CreatedBy(requests, who.userId))
  {
    match who.role
    case Admin =>
      AdminStats(|ActiveEquipment(equipment)|, Counts(requests), |teams|, CostSum(requests),
                 |OverdueRequests(requests, today)|)
    case Technician =>
      TechnicianStats(TeamCountsOf(TeamRequests(requests, who.teamId)),
                      TaskCountsOf(AssignedTo(requests, who.userId)),
                      CostSum(AssignedTo(requests, who.userId)))
    case User =>
      UserStats(Counts(CreatedBy(requests, who.userId)))
  }

  /** A technician without a team has an empty team scope: every count is
      zero and every bucket NULL. */
  lemma TeamlessTechnicianCounts(requests: seq<RequestRow>)
    ensures TeamRequests(requests, None) == []
    ensures TeamCountsOf(TeamRequests(requests, None)) == TeamCounts(0, None, None, None)
  {
    FilterNone(requests, (x: RequestRow) => SqlEq(x.teamId, None));
  }

  /** The rows the activity feed draws from: a USER's own, a TECHNICIAN's
      team's (nothing when they have no team) and, for an ADMIN, all. */
  function ActivityScope(requests: seq<RequestRow>, who: Identity): (r: seq<RequestRow>)
    ensures who.role == User ==> r == CreatedBy(requests, who.userId)
    ensures who.role == Technician ==> r == TeamRequests(requests, who.teamId)
    ensures who.role == Admin ==> r == requests
  {
    match who.role
    case User => CreatedBy(requests, who.userId)
    case Technician => TeamRequests(requests, who.teamId)
    case Admin => requests
  }

  /** ORDER BY updated_at DESC. */
  predicate UpdatedNotBefore(a: RequestRow, b: RequestRow) {
    a.updatedAt >= b.updatedAt
  }

  lemma UpdatedNotBeforeTotal()
    ensures TotalPreorder(UpdatedNotBefore)
  {
  }

  /** GET /api/dashboard/activity: ... ORDER BY updated_at DESC LIMIT 10. */
  function GetRecentActivity(requests: seq<RequestRow>, who: Identity): (r: seq<RequestRow>)
    ensures |r| == if |ActivityScope(requests, who)| < 10 then |ActivityScope(requests, who)| else 10
  {
    var sorted := SortBy(ActivityScope(requests, who), UpdatedNotBefore);
    assert |sorted| == |multiset(sorted)| == |ActivityScope(requests, who)|;
    Take(sorted, 10)
  }

  /** The feed holds ten rows of the caller's scope (all of them when there
      are fewer), most recently updated first, and no row left out was
      updated later than one shown. */
  lemma RecentActivityIsNewestOfScope(requests: seq<RequestRow>, who: Identity)
    ensures var feed := GetRecentActivity(requests, who);
      && |feed| == (if |ActivityScope(requests, who)| < 10 then |ActivityScope(requests, who)| else 10)
      && multiset(feed) <= multiset(ActivityScope(requests, who))
      && SortedBy(feed, UpdatedNotBefore)
      && (|ActivityScope(requests, who)| <= 10 ==> multiset(feed) == multiset(ActivityScope(requests, who)))
      && forall x, y :: x in multiset(ActivityScope(requests, who)) - multiset(feed) && y in feed ==>
           y.updatedAt >= x.updatedAt
  {
    var scope := ActivityScope(requests, who);
    var sorted := SortBy(scope, UpdatedNotBefore);
    var feed := GetRecentActivity(requests, who);
    UpdatedNotBeforeTotal();
    SortBySorted(scope, UpdatedNotBefore);
    assert sorted == feed + sorted[|feed|..];
    assert multiset(sorted) == multiset(feed) + multiset(sorted[|feed|..]);
    forall i, j | 0 <= i < j < |feed| ensures UpdatedNotBefore(feed[i], feed[j]) {
      assert feed[i] == sorted[i] && feed[j] == sorted[j];
    }
    forall x, y | x in multiset(scope) - multiset(feed) && y in feed ensures y.updatedAt >= x.updatedAt {
      TakeOfSortedDominates(sorted, UpdatedNotBefore, 10, x);
    }
  }
}
