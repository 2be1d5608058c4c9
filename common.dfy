/** Shared datatypes and sequence utilities: optional values, handler results,
    filtering, keyed lookup and a stable sort, with the facts the rest of the
    model relies on. */
module Common {

  datatype Option<+T> = None | Some(value: T)

  /** A member of a JSON request body: missing (`undefined`), an explicit
      `null`, or a value. */
  datatype Field<+T> = Absent | Null | Given(value: T)

  /** The failure kinds a handler answers with. */
  datatype Error = BadRequest | Unauthorized | Forbidden | NotFound | Internal

  /** The HTTP status sent for each failure kind. */
  function StatusCode(e: Error): (code: int)
    ensures code in {400, 401, 403, 404, 500}
    ensures code == 401 <==> e == Unauthorized
    ensures code == 403 <==> e == Forbidden
  {
    match e
    case BadRequest => 400
    case Unauthorized => 401
    case Forbidden => 403
    case NotFound => 404
    case Internal => 500
  }

  datatype Result<+T> = Ok(value: T) | Err(error: Error)

  /** JavaScript falsiness of an optional string: `undefined`, `null` and "". */
  predicate Blank(s: Option<string>) {
    s.None? || s.value == ""
  }

  /** JavaScript falsiness of an optional number: `undefined`, `null` and 0. */
  predicate BlankId(x: Option<int>) {
    x.None? || x.value == 0
  }

  /** `cond || null` on an id: a falsy id becomes NULL. */
  function IdOrNull(x: Option<int>): (r: Option<int>)
    ensures r.None? <==> BlankId(x)
    ensures r.Some? ==> r == x
  {
    if BlankId(x) then None else x
  }

  /** A `SET col = ?` on a nullable column when the body member is pushed
      only if it is not `undefined`. */
  function Overwrite<T>(current: Option<T>, f: Field<T>): (r: Option<T>)
    ensures f.Absent? ==> r == current
    ensures f.Null? ==> r.None?
    ensures f.Given? ==> r == Some(f.value)
  {
    match f
    case Absent => current
    case Null => None
    case Given(v) => Some(v)
  }

  // ---------------------------------------------------------------------
  // Filtering (a WHERE clause over a table)

  function Filter<T(!new)>(s: seq<T>, p: T -> bool): (r: seq<T>)
    ensures |r| <= |s|
    ensures forall x :: x in r <==> x in s && p(x)
  {
    if s == [] then []
    else if p(s[0]) then [s[0]] + Filter(s[1..], p)
    else Filter(s[1..], p)
  }

  lemma {:induction false} FilterAll<T(!new)>(s: seq<T>, p: T -> bool)
    requires forall x :: x in s ==> p(x)
    ensures Filter(s, p) == s
  {
    if s != [] {
      FilterAll(s[1..], p);
      assert s == [s[0]] + s[1..];
    }
  }

  lemma {:induction false} FilterNone<T(!new)>(s: seq<T>, p: T -> bool)
    requires forall x :: x in s ==> !p(x)
    ensures Filter(s, p) == []
  {
    if s != [] {
      FilterNone(s[1..], p);
    }
  }

  lemma {:induction false} FilterMultiset<T(!new)>(s: seq<T>, p: T -> bool)
    ensures multiset(Filter(s, p)) <= multiset(s)
  {
    if s != [] {
      FilterMultiset(s[1..], p);
      assert s == [s[0]] + s[1..];
    }
  }

  /** Filtering keeps the order of the rows: the rows kept from a
      concatenation are those kept from each part, in turn. */
  lemma {:induction false} FilterAppend<T(!new)>(a: seq<T>, b: seq<T>, p: T -> bool)
    ensures Filter(a + b, p) == Filter(a, p) + Filter(b, p)
  {
    if a == [] {
      assert a + b == b;
    } else {
      FilterAppend(a[1..], b, p);
      assert (a + b)[0] == a[0];
      assert (a + b)[1..] == a[1..] + b;
    }
  }

  /** A filter that rejects exactly one position drops that row alone. */
  lemma {:induction false} FilterExcept<T(!new)>(s: seq<T>, p: T -> bool, i: nat)
    requires i < |s| && !p(s[i])
    requires forall j :: 0 <= j < |s| && j != i ==> p(s[j])
    ensures Filter(s, p) == s[..i] + s[i + 1..]
  {
    if i == 0 {
      FilterAll(s[1..], p);
    } else {
      FilterExcept(s[1..], p, i - 1);
      assert s[1..][..i - 1] == s[1..i];
      assert s[1..][i..] == s[i + 1..];
      assert [s[0]] + s[1..i] == s[..i];
    }
  }

  // ---------------------------------------------------------------------
  // Primary keys

  /** Keys strictly increase along the table: rows are in insertion order
      under AUTO_INCREMENT, and no key occurs twice. */
  ghost predicate KeysIncreasing<T>(s: seq<T>, key: T -> int) {
    forall i, j :: 0 <= i < j < |s| ==> key(s[i]) < key(s[j])
  }

  /** Every key is below the next AUTO_INCREMENT value. */
  ghost predicate KeysBelow<T>(s: seq<T>, key: T -> int, next: int) {
    forall x :: x in s ==> key(x) < next
  }

  /** Some row of the table has key `k`. */
  predicate HasKey<T(==)>(s: seq<T>, key: T -> int, k: int) {
    exists x :: x in s && key(x) == k
  }

  /** The two tables have the same keys, row by row. */
  ghost predicate SameKeys<T>(s: seq<T>, t: seq<T>, key: T -> int) {
    |s| == |t| && forall i :: 0 <= i < |s| ==> key(s[i]) == key(t[i])
  }

  /** Primary-key lookup: the index of the row with key `k`, if any. */
  function Find<T>(s: seq<T>, key: T -> int, k: int): (r: Option<nat>)
    ensures r.Some? ==> r.value < |s| && key(s[r.value]) == k
    ensures r.None? <==> !HasKey(s, key, k)
  {
    if s == [] then None
    else if key(s[0]) == k then Some(0)
    else
      match Find(s[1..], key, k)
      case None => None
      case Some(i) => Some(i + 1)
  }

  /** Under increasing keys the index found is the only index with that key. */
  lemma FindIndex<T>(s: seq<T>, key: T -> int, k: int)
    requires KeysIncreasing(s, key)
    ensures Find(s, key, k).Some? ==>
      forall j :: 0 <= j < |s| && key(s[j]) == k ==> j == Find(s, key, k).value
  {
  }

  /** The row with key `k` (a `SELECT ... WHERE key = k`, first row). */
  function Lookup<T>(s: seq<T>, key: T -> int, k: int): (r: Option<T>)
    ensures r.None? <==> !HasKey(s, key, k)
    ensures r.Some? ==> r.value in s && key(r.value) == k
  {
    match Find(s, key, k)
    case None => None
    case Some(i) => Some(s[i])
  }

  /** The table with every row whose key is `key(x)` replaced by `x`. */
  function Replace<T>(s: seq<T>, key: T -> int, x: T): (r: seq<T>)
    ensures |r| == |s|
    ensures forall i :: 0 <= i < |s| ==> r[i] == if key(s[i]) == key(x) then x else s[i]
  {
    seq(|s|, i requires 0 <= i < |s| => if key(s[i]) == key(x) then x else s[i])
  }

  /** Under increasing keys, replacing by key is overwriting the one
      position that holds the key. */
  lemma ReplaceAt<T>(s: seq<T>, key: T -> int, i: nat, x: T)
    requires KeysIncreasing(s, key) && i < |s| && key(s[i]) == key(x)
    ensures Replace(s, key, x) == s[i := x]
    ensures Lookup(s, key, key(x)) == Some(s[i])
  {
    FindIndex(s, key, key(x));
  }

  /** Under increasing keys the row found is the only one with that key. */
  lemma FindUnique<T>(s: seq<T>, key: T -> int, k: int, x: T)
    requires KeysIncreasing(s, key)
    requires x in s && key(x) == k
    ensures Find(s, key, k).Some? && s[Find(s, key, k).value] == x
  {
    var i :| 0 <= i < |s| && s[i] == x;
    var j := Find(s, key, k).value;
    assert key(s[i]) == key(s[j]);
    assert i == j;
  }

  lemma {:induction false} FilterKeysIncreasing<T(!new)>(s: seq<T>, p: T -> bool, key: T -> int)
    requires KeysIncreasing(s, key)
    ensures KeysIncreasing(Filter(s, p), key)
  {
    if s != [] {
      var tail := s[1..];
      assert KeysIncreasing(tail, key) by {
        forall i, j | 0 <= i < j < |tail| ensures key(tail[i]) < key(tail[j]) {
          assert tail[i] == s[i + 1] && tail[j] == s[j + 1];
        }
      }
      FilterKeysIncreasing(tail, p, key);
      var rest := Filter(tail, p);
      if p(s[0]) {
        forall y | y in rest ensures key(s[0]) < key(y) {
          var j :| 0 <= j < |tail| && tail[j] == y;
          assert s[j + 1] == y;
        }
        var r := [s[0]] + rest;
        forall i, j | 0 <= i < j < |r| ensures key(r[i]) < key(r[j]) {
          assert r[j] == rest[j - 1] && r[j] in rest;
          if i > 0 {
            assert r[i] == rest[i - 1];
          }
        }
      }
    }
  }

  lemma AppendKeysIncreasing<T>(s: seq<T>, x: T, key: T -> int, next: int)
    requires KeysIncreasing(s, key) && KeysBelow(s, key, next) && key(x) == next
    ensures KeysIncreasing(s + [x], key) && KeysBelow(s + [x], key, next + 1)
  {
    var r := s + [x];
    forall i, j | 0 <= i < j < |r| ensures key(r[i]) < key(r[j]) {
      assert r[i] == s[i] && r[i] in s;
      if j < |s| {
        assert r[j] == s[j];
      }
    }
  }

  lemma SameKeysPreserve<T>(s: seq<T>, t: seq<T>, key: T -> int)
    requires SameKeys(s, t, key)
    ensures KeysIncreasing(s, key) ==> KeysIncreasing(t, key)
    ensures forall k :: HasKey(s, key, k) <==> HasKey(t, key, k)
    ensures forall next :: KeysBelow(s, key, next) ==> KeysBelow(t, key, next)
  {
    forall k ensures HasKey(s, key, k) <==> HasKey(t, key, k) {
      if HasKey(s, key, k) {
        var x :| x in s && key(x) == k;
        var i :| 0 <= i < |s| && s[i] == x;
        assert t[i] in t;
      }
      if HasKey(t, key, k) {
        var x :| x in t && key(x) == k;
        var i :| 0 <= i < |t| && t[i] == x;
        assert s[i] in s;
      }
    }
    forall next | KeysBelow(s, key, next) ensures KeysBelow(t, key, next) {
      forall y | y in t ensures key(y) < next {
        var i :| 0 <= i < |t| && t[i] == y;
        assert s[i] in s;
      }
    }
  }

  /** The set of distinct keys (a COUNT(DISTINCT key) over the rows). */
  ghost function KeySet<T>(s: seq<T>, key: T -> int): set<int> {
    set x | x in s :: key(x)
  }

  lemma {:induction false} DistinctKeysCount<T>(s: seq<T>, key: T -> int)
    requires KeysIncreasing(s, key)
    ensures |KeySet(s, key)| == |s|
  {
    if s == [] {
      assert KeySet(s, key) == {};
    } else {
      var tail := s[1..];
      assert KeysIncreasing(tail, key) by {
        forall i, j | 0 <= i < j < |tail| ensures key(tail[i]) < key(tail[j]) {
          assert tail[i] == s[i + 1] && tail[j] == s[j + 1];
        }
      }
      DistinctKeysCount(tail, key);
      forall y | y in tail ensures key(s[0]) < key(y) {
        var j :| 0 <= j < |tail| && tail[j] == y;
        assert s[j + 1] == y;
      }
      assert key(s[0]) !in KeySet(tail, key);
      assert KeySet(s, key) == {key(s[0])} + KeySet(tail, key) by {
        assert s == [s[0]] + tail;
      }
    }
  }

  // ---------------------------------------------------------------------
  // Ordering (an ORDER BY clause)

  /** `before(a, b)`: `a` may be listed ahead of `b`. A total preorder lets
      rows with equal sort keys be listed in any order. */
  ghost predicate TotalPreorder<T(!new)>(before: (T, T) -> bool) {
    && (forall a, b :: before(a, b) || before(b, a))
    && (forall a, b, c :: before(a, b) && before(b, c) ==> before(a, c))
  }

  ghost predicate SortedBy<T>(s: seq<T>, before: (T, T) -> bool) {
    forall i, j :: 0 <= i < j < |s| ==> before(s[i], s[j])
  }

  function Insert<T>(x: T, s: seq<T>, before: (T, T) -> bool): (r: seq<T>)
    ensures multiset(r) == multiset(s) + multiset{x}
  {
    if s == [] then [x]
    else if before(x, s[0]) then [x] + s
    else
      assert s == [s[0]] + s[1..];
      [s[0]] + Insert(x, s[1..], before)
  }

  /** Insertion sort: a stable sort of `s` by `before`. */
  function SortBy<T>(s: seq<T>, before: (T, T) -> bool): (r: seq<T>)
    ensures multiset(r) == multiset(s)
  {
    if s == [] then []
    else
      assert s == [s[0]] + s[1..];
      Insert(s[0], SortBy(s[1..], before), before)
  }

  lemma {:induction false} InsertSorted<T(!new)>(x: T, s: seq<T>, before: (T, T) -> bool)
    requires TotalPreorder(before) && SortedBy(s, before)
    ensures SortedBy(Insert(x, s, before), before)
  {
    if s != [] && !before(x, s[0]) {
      var tail := s[1..];
      assert SortedBy(tail, before) by {
        forall i, j | 0 <= i < j < |tail| ensures before(tail[i], tail[j]) {
          assert tail[i] == s[i + 1] && tail[j] == s[j + 1];
        }
      }
      InsertSorted(x, tail, before);
      var rest := Insert(x, tail, before);
      forall y | y in rest ensures before(s[0], y) {
        assert y in multiset(rest);
        if y != x {
          assert y in multiset(tail);
          var j :| 0 <= j < |tail| && tail[j] == y;
          assert s[j + 1] == y;
        }
      }
      var r := [s[0]] + rest;
      forall i, j | 0 <= i < j < |r| ensures before(r[i], r[j]) {
        assert r[j] == rest[j - 1] && r[j] in rest;
        if i > 0 {
          assert r[i] == rest[i - 1];
        }
      }
    } else if s != [] {
      var r := [x] + s;
      forall i, j | 0 <= i < j < |r| ensures before(r[i], r[j]) {
        if i == 0 {
          assert r[j] == s[j - 1];
          if j > 1 {
            assert before(s[0], s[j - 1]);
          }
        } else {
          assert r[i] == s[i - 1] && r[j] == s[j - 1];
        }
      }
    }
  }

  lemma {:induction false} SortBySorted<T(!new)>(s: seq<T>, before: (T, T) -> bool)
    requires TotalPreorder(before)
    ensures SortedBy(SortBy(s, before), before)
  {
    if s != [] {
      SortBySorted(s[1..], before);
      InsertSorted(s[0], SortBy(s[1..], before), before);
    }
  }

  /** The first `n` rows (a LIMIT clause). */
  function Take<T>(s: seq<T>, n: nat): (r: seq<T>)
    ensures |r| == if |s| < n then |s| else n
    ensures r <= s
  {
    if |s| <= n then s else s[..n]
  }

  /** Every row a sorted prefix leaves out comes no earlier than the rows
      kept: the prefix holds the first `n` rows of the order. */
  lemma TakeOfSortedDominates<T>(s: seq<T>, before: (T, T) -> bool, n: nat, x: T)
    requires SortedBy(s, before)
    requires x in multiset(s) - multiset(Take(s, n))
    ensures forall y :: y in Take(s, n) ==> before(y, x)
  {
    var t := Take(s, n);
    var drop := s[|t|..];
    assert s == t + drop;
    assert multiset(s) == multiset(t) + multiset(drop);
    assert x in multiset(drop);
    var j :| 0 <= j < |drop| && drop[j] == x;
    assert s[|t| + j] == x;
    forall y | y in t ensures before(y, x) {
      var i :| 0 <= i < |t| && t[i] == y;
      assert s[i] == y;
    }
  }

  // ---------------------------------------------------------------------
  // Strings

  /** Code-point lexicographic order on strings, shorter prefix first. */
  predicate LexLe(a: string, b: string) {
    if a == [] then true
    else if b == [] then false
    else if a[0] != b[0] then a[0] < b[0]
    else LexLe(a[1..], b[1..])
  }

  lemma {:induction false} LexLeTotal(a: string, b: string)
    ensures LexLe(a, b) || LexLe(b, a)
  {
    if a != [] && b != [] && a[0] == b[0] {
      LexLeTotal(a[1..], b[1..]);
    }
  }

  lemma {:induction false} LexLeTransitive(a: string, b: string, c: string)
    requires LexLe(a, b) && LexLe(b, c)
    ensures LexLe(a, c)
  {
    if a != [] && b != [] && c != [] && a[0] == b[0] && b[0] == c[0] {
      LexLeTransitive(a[1..], b[1..], c[1..]);
    }
  }
}
