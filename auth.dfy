/** The authentication middleware of backend/middleware/auth.js: `protect`
    reads a bearer token from the Authorization header, verifies it and
    loads the caller's user row; `authorize` admits a fixed list of roles.
    Token verification itself is an oracle `verify` that yields the user id
    carried by a valid token, or nothing when verification throws. */
module Auth {
  import opened Common
  import opened Schema

  /** The caller as attached to the request: the user's id, name, email,
      role and team, without the password hash. */
  datatype Identity = Identity(userId: int, name: string, email: string, role: Role, teamId: Option<int>)

  function IdentityOf(u: UserRow): (who: Identity)
    ensures who.userId == u.id && who.role == u.role && who.teamId == u.teamId
    ensures who.name == u.name && who.email == u.email
  {
    Identity(u.id, u.name, u.email, u.role, u.teamId)
  }

  /** The identity belongs to a user row of the table. */
  ghost predicate Authenticated(users: seq<UserRow>, who: Identity) {
    exists u :: u in users && IdentityOf(u) == who
  }

  // ---------------------------------------------------------------------
  // Header parsing

  predicate StartsWith(s: string, prefix: string) {
    |prefix| <= |s| && s[..|prefix|] == prefix
  }

  /** `s.split(sep)` for a one-character separator: the pieces between
      separators, empty pieces included. */
  function Split(s: string, sep: char): (parts: seq<string>)
    ensures |parts| >= 1
    ensures forall p :: p in parts ==> sep !in p
    decreases |s|
  {
    if s == [] then [""]
    else
      var rest := Split(s[1..], sep);
      if s[0] == sep then [""] + rest
      else [[s[0]] + rest[0]] + rest[1..]
  }

  /** `parts.join(sep)`. */
  function Join(parts: seq<string>, sep: char): string
    requires |parts| >= 1
    decreases |parts|
  {
    if |parts| == 1 then parts[0] else parts[0] + [sep] + Join(parts[1..], sep)
  }

  /** Splitting loses nothing: joining the pieces gives the header back. */
  lemma {:induction false} SplitJoin(s: string, sep: char)
    ensures Join(Split(s, sep), sep) == s
    decreases |s|
  {
    if s != [] {
      var rest := Split(s[1..], sep);
      SplitJoin(s[1..], sep);
      if s[0] == sep {
        assert s == [sep] + s[1..];
      } else {
        var parts := Split(s, sep);
        assert parts[0] == [s[0]] + rest[0];
        if |rest| == 1 {
          assert parts == [[s[0]] + rest[0]];
        } else {
          assert parts[1..] == rest[1..];
          assert Join(rest, sep) == rest[0] + [sep] + Join(rest[1..], sep);
        }
      }
    }
  }

  /** A piece without separators followed by a separator is split off whole. */
  lemma {:induction false} SplitAfterPiece(a: string, b: string, sep: char)
    requires sep !in a
    ensures Split(a + [sep] + b, sep) == [a] + Split(b, sep)
    decreases |a|
  {
    if a == [] {
      assert a + [sep] + b == [sep] + b;
      assert ([sep] + b)[1..] == b;
    } else {
      SplitAfterPiece(a[1..], b, sep);
      assert (a + [sep] + b)[1..] == a[1..] + [sep] + b;
      assert [a[0]] + a[1..] == a;
    }
  }

  /** A piece without separators splits into itself. */
  lemma {:induction false} SplitWhole(a: string, sep: char)
    requires sep !in a
    ensures Split(a, sep) == [a]
    decreases |a|
  {
    if a != [] {
      SplitWhole(a[1..], sep);
      assert [a[0]] + a[1..] == a;
    }
  }

  /** Lines 9-11 of the middleware: the second space-separated piece of a
      header that starts with "Bearer", when that piece is not empty. */
  function BearerToken(header: Option<string>): (token: Option<string>)
    ensures token.Some? ==> header.Some? && StartsWith(header.value, "Bearer")
    ensures token.Some? ==> token.value != "" && ' ' !in token.value
  {
    if header.Some? && StartsWith(header.value, "Bearer") then
      var parts := Split(header.value, ' ');
      if |parts| >= 2 && parts[1] != "" then Some(parts[1]) else None
    else None
  }

  /** A header built as "Bearer " + token yields that token back. */
  lemma BearerRoundTrip(token: string)
    requires token != "" && ' ' !in token
    ensures BearerToken(Some("Bearer " + token)) == Some(token)
  {
    var h := "Bearer " + token;
    assert h == "Bearer" + [' '] + token;
    SplitAfterPiece("Bearer", token, ' ');
    SplitWhole(token, ' ');
    assert h[..6] == "Bearer";
  }

  /** A header with nothing after "Bearer", or with an empty second piece,
      carries no token. */
  lemma NoSecondPiece(rest: string)
    requires ' ' !in rest
    ensures BearerToken(Some("Bearer" + rest)) == None
    ensures BearerToken(Some("Bearer " + " " + rest)) == None
  {
    var h1 := "Bearer" + rest;
    SplitWhole(h1, ' ');
    assert h1[..6] == "Bearer";
    var h2 := "Bearer " + " " + rest;
    assert h2 == "Bearer" + [' '] + ([' '] + rest);
    SplitAfterPiece("Bearer", [' '] + rest, ' ');
    SplitAfterPiece("", rest, ' ');
    assert [] + [' '] + rest == [' '] + rest;
    assert h2[..6] == "Bearer";
  }

  // ---------------------------------------------------------------------
  // The two middlewares

  /** `protect`: every failure is 401, and success attaches exactly the
      looked-up user's identity. */
  method Protect(users: seq<UserRow>, header: Option<string>, verify: string -> Option<int>)
    returns (r: Result<Identity>)
    ensures r.Err? ==> r.error == Unauthorized
    ensures r.Ok? <==>
      && BearerToken(header).Some?
      && verify(BearerToken(header).value).Some?
      && HasKey(users, UserKey, verify(BearerToken(header).value).value)
    ensures r.Ok? ==>
      exists u :: u in users && u.id == verify(BearerToken(header).value).value && r.value == IdentityOf(u)
    ensures r.Ok? ==> Authenticated(users, r.value)
  {
    var token: Option<string> := None;
    if header.Some? && StartsWith(header.value, "Bearer") {
      var parts := Split(header.value, ' ');
      if |parts| >= 2 {
        token := Some(parts[1]);
      }
    }
    if token.None? || token.value == "" {
      return Err(Unauthorized);
    }
    var decoded := verify(token.value);
    if decoded.None? {
      return Err(Unauthorized);
    }
    match Find(users, UserKey, decoded.value)
    case None =>
      r := Err(Unauthorized);
    case Some(i) =>
      assert users[i] in users;
      r := Ok(IdentityOf(users[i]));
  }

  /** `authorize(...roles)`: the call goes on exactly when the caller's role
      is listed, and is refused with 403 otherwise. */
  function Authorize(roles: seq<Role>, who: Identity): (r: Result<()>)
    ensures r.Ok? <==> who.role in roles
    ensures r.Err? ==> r.error == Forbidden
  {
    if who.role in roles then Ok(()) else Err(Forbidden)
  }
}
