/** The board of frontend/src/pages/Kanban.js: the fetched requests grouped
    into one column per status, the draggable id of a card, and the local
    update after a card is dropped on another column. The API call a drop
    makes is a parameter saying whether it succeeded. */
module Kanban {
  import opened Common
  import opened Schema

  /** The keys of STATUS_COLUMNS, in display order. */
  const Columns: seq<RequestStatus> := [New, InProgress, Repaired, Scrap]

  /** Every status has a column, exactly one. */
  lemma ColumnsAreTheStatuses(s: RequestStatus)
    ensures s in Columns
    ensures forall i, j :: 0 <= i < j < |Columns| ==> Columns[i] != Columns[j]
  {
  }

  /** `requests.filter(req => req.status === status)`: the requests with
      that status, in their original order. */
  function Column(requests: seq<RequestRow>, s: RequestStatus): (col: seq<RequestRow>)
    ensures forall r :: r in col <==> r in requests && r.status == Some(s)
    ensures |col| == CountStatus(requests, Some(s))
  {
    CountStatusCounts(requests, Some(s));
    Filter(requests, (r: RequestRow) => r.status == Some(s))
  }

  /** A column lists its requests in the order they were fetched: a single
      request is in it alone or not at all, and the column of a
      concatenation is the two columns one after the other. */
  lemma ColumnKeepsOrder(a: seq<RequestRow>, b: seq<RequestRow>, s: RequestStatus)
    ensures Column(a + b, s) == Column(a, s) + Column(b, s)
    ensures forall r :: Column([r], s) == if r.status == Some(s) then [r] else []
  {
    FilterAppend(a, b, (r: RequestRow) => r.status == Some(s));
  }

  /** A request is on the board, in exactly the column of its status, when
      it has a status, and in no column when its status is NULL. */
  lemma ColumnsPartition(requests: seq<RequestRow>, r: RequestRow)
    requires r in requests
    ensures forall s :: r in Column(requests, s) <==> r.status == Some(s)
    ensures r.status.None? ==> forall s :: s in Columns ==> r !in Column(requests, s)
  {
  }

  /** The cards shown add up to the requests fetched, less those whose
      status is NULL. */
  lemma BoardCountsEveryRequest(requests: seq<RequestRow>)
    ensures |Column(requests, New)| + |Column(requests, InProgress)| + |Column(requests, Repaired)|
            + |Column(requests, Scrap)| + CountStatus(requests, None) == |requests|
  {
    StatusPartition(requests);
  }

  /** `groupedRequests[status]?.length || 0`: a column's displayed count. */
  function ColumnCount(groups: map<RequestStatus, seq<RequestRow>>, s: RequestStatus): nat {
    if s in groups then |groups[s]| else 0
  }

  // ---------------------------------------------------------------------
  // Draggable ids

  function Digit(d: nat): (c: char)
    requires d < 10
    ensures '0' <= c <= '9'
  {
    ('0' as int + d) as char
  }

  /** `n.toString()` for a non-negative integer. */
  function Decimal(n: nat): (s: string)
    ensures |s| >= 1 && (n >= 10 ==> |s| >= 2)
    ensures forall c :: c in s ==> '0' <= c <= '9'
    decreases n
  {
    if n < 10 then [Digit(n)] else Decimal(n / 10) + [Digit(n % 10)]
  }

  /** Distinct ids print differently, so comparing printed ids compares the
      ids. */
  lemma {:induction false} DecimalInjective(a: nat, b: nat)
    requires Decimal(a) == Decimal(b)
    ensures a == b
    decreases a
  {
    if a >= 10 && b >= 10 {
      var da, db := Decimal(a), Decimal(b);
      assert da[|da| - 1] == Digit(a % 10) && db[|db| - 1] == Digit(b % 10);
      assert Decimal(a / 10) == da[..|da| - 1] == db[..|db| - 1] == Decimal(b / 10);
      DecimalInjective(a / 10, b / 10);
    }
  }

  /** The prefix of every card's draggable id. */
  const CardPrefix: string := "request-"

  /** `draggableId={`request-${request.request_id}`}` */
  function DraggableId(id: nat): (s: string)
    ensures |s| == |CardPrefix| + |Decimal(id)|
  {
    CardPrefix + Decimal(id)
  }

  predicate OccursAt(s: string, pattern: string, i: nat) {
    i + |pattern| <= |s| && s[i..i + |pattern|] == pattern
  }

  /** The first index at or after `from` where `pattern` occurs. */
  function IndexOf(s: string, pattern: string, from: nat): (r: Option<nat>)
    ensures r.Some? ==> from <= r.value && OccursAt(s, pattern, r.value)
    ensures r.Some? ==> forall j :: from <= j < r.value ==> !OccursAt(s, pattern, j)
    ensures r.None? ==> forall j :: from <= j ==> !OccursAt(s, pattern, j)
    decreases |s| - from
  {
    if from + |pattern| > |s| then None
    else if OccursAt(s, pattern, from) then Some(from)
    else IndexOf(s, pattern, from + 1)
  }

  /** `s.replace(pattern, replacement)` with a string pattern: only the
      first occurrence is replaced. */
  function ReplaceFirst(s: string, pattern: string, replacement: string): (r: string)
    ensures IndexOf(s, pattern, 0).None? ==> r == s
    ensures IndexOf(s, pattern, 0).Some? ==>
      var i := IndexOf(s, pattern, 0).value;
      && |r| == |s| - |pattern| + |replacement|
      && r[..i] == s[..i]
      && r[i..i + |replacement|] == replacement
      && r[i + |replacement|..] == s[i + |pattern|..]
  {
    match IndexOf(s, pattern, 0)
    case None => s
    case Some(i) => s[..i] + replacement + s[i + |pattern|..]
  }

  /** Stripping the prefix from a card's draggable id gives back the
      printed id it was built from. */
  lemma DraggableIdRoundTrip(id: nat)
    ensures ReplaceFirst(DraggableId(id), CardPrefix, "") == Decimal(id)
  {
    var s := DraggableId(id);
    assert OccursAt(s, CardPrefix, 0) by {
      assert s[..|CardPrefix|] == CardPrefix;
    }
    assert IndexOf(s, CardPrefix, 0) == Some(0);
    assert s[|CardPrefix|..] == Decimal(id);
  }

  // ---------------------------------------------------------------------
  // Dropping a card

  /** The `prevRequests.map(...)` of a successful drop: every request whose
      printed id is `requestId` gets the new status. */
  function Moved(requests: seq<RequestRow>, requestId: string, status: RequestStatus): (r: seq<RequestRow>)
    ensures |r| == |requests|
  {
    seq(|requests|, i requires 0 <= i < |requests| =>
      if Decimal(requests[i].id) == requestId then requests[i].(status := Some(status)) else requests[i])
  }

  /** Dropping the card of request `id` on a column changes that request's
      status and nothing else, and the card moves to that column. */
  lemma {:induction false} DropMovesOneCard(requests: seq<RequestRow>, id: nat, status: RequestStatus)
    ensures var moved := Moved(requests, ReplaceFirst(DraggableId(id), CardPrefix, ""), status);
      && (forall i :: 0 <= i < |requests| && requests[i].id == id ==> moved[i] == requests[i].(status := Some(status)))
      && (forall i :: 0 <= i < |requests| && requests[i].id != id ==> moved[i] == requests[i])
      && (forall i :: 0 <= i < |requests| && requests[i].id == id ==> moved[i] in Column(moved, status))
  {
    DraggableIdRoundTrip(id);
    var moved := Moved(requests, Decimal(id), status);
    forall i | 0 <= i < |requests| && requests[i].id != id ensures moved[i] == requests[i] {
      if Decimal(requests[i].id) == Decimal(id) {
        DecimalInjective(requests[i].id, id);
      }
    }
    forall i | 0 <= i < |requests| && requests[i].id == id ensures moved[i] in Column(moved, status) {
      assert moved[i] in moved;
    }
  }

  /** The board's state: the requests last fetched. */
  class Board {
    var requests: seq<RequestRow>

    constructor (fetched: seq<RequestRow>)
      ensures requests == fetched
    {
      requests := fetched;
    }

    /** `groupedRequests`: one entry per column, holding that column's
        requests, built up column by column. */
    method GroupedRequests() returns (groups: map<RequestStatus, seq<RequestRow>>)
      ensures forall s :: s in groups && groups[s] == Column(requests, s)
      ensures forall s :: ColumnCount(groups, s) == CountStatus(requests, Some(s))
    {
      groups := map[];
      var i := 0;
      while i < |Columns|
        invariant 0 <= i <= |Columns|
        invariant forall s :: s in groups <==> s in Columns[..i]
        invariant forall s :: s in groups ==> groups[s] == Column(requests, s)
      {
        groups := groups[Columns[i] := Column(requests, Columns[i])];
        i := i + 1;
      }
      forall s ensures s in groups {
        ColumnsAreTheStatuses(s);
        assert Columns[..i] == Columns;
      }
    }

    /** `handleDragEnd`: a drop outside any column, or a drop whose status
        update the API refuses, leaves the board as it was; otherwise the
        dropped card's request takes the column's status. */
    method HandleDragEnd(draggableId: string, destination: Option<RequestStatus>, apiOk: bool)
      modifies this
      ensures destination.None? || !apiOk ==> requests == old(requests)
      ensures destination.Some? && apiOk ==>
        requests == Moved(old(requests), ReplaceFirst(draggableId, CardPrefix, ""), destination.value)
    {
      if destination.None? {
        return;
      }
      var requestId := ReplaceFirst(draggableId, CardPrefix, "");
      var newStatus := destination.value;
      if !apiOk {
        return;
      }
      requests := Moved(requests, requestId, newStatus);
    }
  }
}
