/** Session tokens. The JSON Web Token library itself is not modelled: its
    `sign` and `verify` are the two function fields of a `TokenService`
    value. What is modelled is what the application chooses: the payload,
    the signing key and its fallback, the verifying key, and the lifetime. */
module Tokens {
  import opened Common
  import opened Store

  /** The token payload `{ id: user.id, role_id: user.role }`: the role
      travels under the key `role_id`. */
  datatype Claims = Claims(id: nat, roleId: string)

  /** What `jwt.verify` yields: the decoded payload, or the exception it
      throws (bad signature, malformed token, expired, missing key). */
  datatype Verified = Decoded(claims: Claims) | Rejected(error: Error)

  /** `sign(payload, secret, expiresIn)` and `verify(token, secret)`; the
      verifying secret is `process.env.JWT_SECRET as string`, which may be
      `undefined` (`None`). */
  datatype TokenService = TokenService(
    sign: (Claims, string, string) -> string,
    verify: (string, Option<string>) -> Verified)

  /** The two environment variables the token code reads. */
  datatype JwtEnv = JwtEnv(secret: Option<string>, expiresIn: Option<string>)

  const FallbackSecret := "secret_key"
  const DefaultLifetime := "1d"

  /** `process.env.JWT_SECRET || 'secret_key'`: an unset or empty secret
      signs with the fixed fallback. */
  function SigningKey(env: JwtEnv): (k: string)
    ensures env.secret.Some? && env.secret.value != "" ==> k == env.secret.value
    ensures env.secret == None || env.secret == Some("") ==> k == FallbackSecret
  {
    match env.secret
    case Some(s) => if s != "" then s else FallbackSecret
    case None => FallbackSecret
  }

  /** The verifying key is the raw variable, with no fallback. */
  function VerifyingKey(env: JwtEnv): Option<string> {
    env.secret
  }

  /** Issuing and verifying use the same key exactly when the secret is
      set and non-empty; otherwise tokens are signed with `secret_key` and
      checked against something else. */
  lemma KeysAgreeIffSecretSet(env: JwtEnv)
    ensures VerifyingKey(env) == Some(SigningKey(env)) <==> (env.secret.Some? && env.secret.value != "")
  {
  }

  /** `process.env.JWT_EXPIRES_IN || '1d'`. */
  function Lifetime(env: JwtEnv): (e: string)
    ensures env.expiresIn == None || env.expiresIn == Some("") ==> e == DefaultLifetime
    ensures env.expiresIn.Some? && env.expiresIn.value != "" ==> e == env.expiresIn.value
  {
    match env.expiresIn
    case Some(e) => if e != "" then e else DefaultLifetime
    case None => DefaultLifetime
  }

  function Payload(u: User): (c: Claims)
    ensures c.id == u.id && c.roleId == u.role
  {
    Claims(u.id, u.role)
  }

  /** The token that `register` and `login` put in their responses. */
  function IssueToken(ts: TokenService, u: User, env: JwtEnv): (t: string)
    ensures forall v: User :: v.id == u.id && v.role == u.role ==> t == ts.sign(Payload(v), SigningKey(env), Lifetime(env))
  {
    ts.sign(Payload(u), SigningKey(env), Lifetime(env))
  }

  /** The library's promise, for one issued token: verifying it with the
      key it was signed with, before it expires, gives back its payload. */
  ghost predicate Verifies(ts: TokenService, u: User, env: JwtEnv) {
    ts.verify(IssueToken(ts, u, env), Some(SigningKey(env))) == Decoded(Payload(u))
  }
}
