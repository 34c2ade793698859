/** The authentication gate of `auth.middleware.ts`: `protect` takes the
    bearer token from the `Authorization` header, verifies it, re-reads the
    user it names from the user table and attaches that record to the
    request; `restrictTo` admits a request whose user has a listed role. */
module AuthGate {
  import opened Common
  import opened Strings
  import opened Store
  import opened Tokens

  const LoggedOut := AppError("You are not logged in", 401)
  const UserGone := AppError("The user no longer exists", 401)
  const ActionForbidden := AppError("You do not have permission to perform this action", 403)

  /** The token of an `Authorization` header: taken only when the header
      starts with `Bearer`, and then element 1 of splitting the header on a
      single space (`None` when there is no such element). */
  function ExtractToken(header: Option<string>): (token: Option<string>)
    ensures token.Some? ==> header.Some? && StartsWith(header.value, "Bearer")
    ensures token.Some? ==> ' ' !in token.value
    ensures header.Some? && StartsWith(header.value, "Bearer") && ' ' in header.value ==> token.Some?
  {
    if header.Some? && StartsWith(header.value, "Bearer") then
      var parts := Split(header.value, ' ');
      if |parts| > 1 then Some(parts[1]) else None
    else None
  }

  /** A well-formed header yields exactly its token. */
  lemma BearerHeaderYieldsToken(token: string)
    requires ' ' !in token
    ensures ExtractToken(Some("Bearer " + token)) == Some(token)
  {
    var parts := ["Bearer", token];
    assert Join(parts, ' ') == "Bearer " + token;
    SplitJoin(parts, ' ');
    assert StartsWith("Bearer " + token, "Bearer") by {
      assert ("Bearer " + token)[..6] == "Bearer";
    }
  }

  /** A header without a space has no element 1. */
  lemma NoSpaceNoToken(header: string)
    requires ' ' !in header
    ensures ExtractToken(Some(header)) == None
  {
    SplitJoin([header], ' ');
  }

  /** A doubled space puts the empty string at element 1. */
  lemma DoubleSpaceEmptyToken(token: string)
    requires ' ' !in token
    ensures ExtractToken(Some("Bearer  " + token)) == Some("")
  {
    var parts := ["Bearer", "", token];
    assert Join(parts, ' ') == "Bearer  " + token by {
      assert parts[1..] == ["", token];
      assert Join(parts[1..], ' ') == " " + token;
    }
    SplitJoin(parts, ' ');
    assert StartsWith("Bearer  " + token, "Bearer") by {
      assert ("Bearer  " + token)[..6] == "Bearer";
    }
  }

  /** The scheme alone, the scheme glued to the token and a doubled space
      give no token or the empty one. */
  lemma MalformedHeaders(token: string)
    requires token != [] && ' ' !in token
    ensures ExtractToken(Some("Bearer")) == None
    ensures ExtractToken(Some("Bearer" + token)) == None
    ensures ExtractToken(Some("Bearer  " + token)) == Some("")
  {
    assert ' ' !in "Bearer";
    NoSpaceNoToken("Bearer");
    assert ' ' !in "Bearer" + token;
    NoSpaceNoToken("Bearer" + token);
    DoubleSpaceEmptyToken(token);
  }

  /** What `protect` decides: the user record to attach, or the error it
      passes to `next`. */
  datatype Resolution = Resolved(user: User) | Denied(error: Error)

  /** The decision of `protect` for a header, the verifying key, the token
      library and the user table. */
  function Authenticate(header: Option<string>, key: Option<string>, ts: TokenService, users: map<nat, User>): (r: Resolution)
    ensures ExtractToken(header) == None || ExtractToken(header) == Some("") ==> r == Denied(LoggedOut)
    ensures r.Resolved? <==>
      (&& ExtractToken(header).Some? && ExtractToken(header).value != ""
       && ts.verify(ExtractToken(header).value, key).Decoded?
       && ts.verify(ExtractToken(header).value, key).claims.id in users)
    ensures r.Resolved? ==> r.user == users[ts.verify(ExtractToken(header).value, key).claims.id]
    ensures ExtractToken(header).Some? && ExtractToken(header).value != ""
            && ts.verify(ExtractToken(header).value, key).Rejected? ==>
            r == Denied(ts.verify(ExtractToken(header).value, key).error)
    ensures ExtractToken(header).Some? && ExtractToken(header).value != ""
            && ts.verify(ExtractToken(header).value, key).Decoded?
            && ts.verify(ExtractToken(header).value, key).claims.id !in users ==>
            r == Denied(UserGone)
  {
    var token := ExtractToken(header);
    if token.None? || token.value == "" then Denied(LoggedOut)
    else
      match ts.verify(token.value, key)
      case Rejected(e) => Denied(e)
      case Decoded(claims) =>
        if claims.id in users then Resolved(users[claims.id]) else Denied(UserGone)
  }

  /** `protect`: on success `req.user` becomes the stored record and the
      request continues; on any failure `req.user` is left as it was. */
  method Protect(req: Request, db: Db, env: JwtEnv, ts: TokenService) returns (outcome: Outcome)
    modifies req`user
    ensures Authenticate(old(req.authorization), VerifyingKey(env), ts, db.users).Resolved? ==>
      outcome == Continue && req.user == Some(Authenticate(old(req.authorization), VerifyingKey(env), ts, db.users).user)
    ensures Authenticate(old(req.authorization), VerifyingKey(env), ts, db.users).Denied? ==>
      outcome == Fail(Authenticate(old(req.authorization), VerifyingKey(env), ts, db.users).error)
      && req.user == old(req.user)
  {
    var r := Authenticate(req.authorization, VerifyingKey(env), ts, db.users);
    match r
    case Resolved(u) =>
      req.user := Some(u);
      outcome := Continue;
    case Denied(e) =>
      outcome := Fail(e);
  }

  /** A token issued for a stored user, verified with the key it was signed
      with, attaches the user's current record (not the token's claims). */
  lemma IssuedTokenAuthenticates(ts: TokenService, u: User, env: JwtEnv, users: map<nat, User>)
    requires env.secret.Some? && env.secret.value != ""
    requires Verifies(ts, u, env)
    requires var t := IssueToken(ts, u, env); t != "" && ' ' !in t
    requires u.id in users
    ensures Authenticate(Some("Bearer " + IssueToken(ts, u, env)), VerifyingKey(env), ts, users) == Resolved(users[u.id])
  {
    BearerHeaderYieldsToken(IssueToken(ts, u, env));
  }

  /** The role carried in the token (`role_id`) plays no part: two tokens
      whose claims name the same id resolve alike. */
  lemma ClaimedRoleIgnored(t: string, key: Option<string>, ts1: TokenService, ts2: TokenService, users: map<nat, User>)
    requires t != "" && ' ' !in t
    requires ts1.verify(t, key).Decoded? && ts2.verify(t, key).Decoded?
    requires ts1.verify(t, key).claims.id == ts2.verify(t, key).claims.id
    ensures Authenticate(Some("Bearer " + t), key, ts1, users) == Authenticate(Some("Bearer " + t), key, ts2, users)
  {
    BearerHeaderYieldsToken(t);
  }

  /** The gate checks only that the user exists: a user whose status is no
      longer ACTIVE still passes with a token issued earlier. */
  lemma InactiveUserStillAuthenticates(t: string, key: Option<string>, ts: TokenService, users: map<nat, User>, id: nat)
    requires t != "" && ' ' !in t
    requires ts.verify(t, key).Decoded? && ts.verify(t, key).claims.id == id
    requires id in users && users[id].status != "ACTIVE"
    ensures Authenticate(Some("Bearer " + t), key, ts, users) == Resolved(users[id])
  {
    BearerHeaderYieldsToken(t);
  }

  /** `restrictTo(...roles)`: reading the role of a missing `req.user`
      throws a TypeError, which Express forwards. */
  function RestrictTo(roles: seq<string>, user: Option<User>): (r: Outcome)
    ensures user.None? ==> r == Fail(TypeError)
    ensures user.Some? ==> (r == Continue <==> user.value.role in roles)
    ensures user.Some? && user.value.role !in roles ==> r == Fail(ActionForbidden)
  {
    if user.None? then Fail(TypeError)
    else if user.value.role !in roles then Fail(ActionForbidden)
    else Continue
  }
}
