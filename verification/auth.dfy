/**
 * The authentication middleware: take a bearer token from the Authorization
 * header, verify it, and check the role the route requires.
 *
 * Token verification (signature and expiry) is outside the model: it is a
 * parameter, a function from token to either the decoded payload or the
 * verifier's error message.
 */
module Auth {
  import opened Common

  const BearerPrefix: string := "Bearer "

  /** The claims a verified token carries; `role` may be missing. */
  datatype Payload = Payload(id: string, email: string, name: string, role: Option<string>)

  datatype Verified = Valid(payload: Payload) | Invalid(reason: string)

  const Unauthorized: HttpError := HttpError(401, "Unauthorized")
  const Forbidden: HttpError := HttpError(403, "Forbidden")

  predicate HasBearerPrefix(header: string)
  {
    |header| >= |BearerPrefix| && header[..|BearerPrefix|] == BearerPrefix
  }

  /**
   * The token after the 7-character prefix. A missing header counts as the
   * empty one; a header without the prefix, or with nothing after it, has no token.
   */
  function BearerToken(header: Option<string>): (r: Option<string>)
    ensures r.Some? <==> header.Some? && HasBearerPrefix(header.value) && |header.value| > |BearerPrefix|
    ensures r.Some? ==> r.value != "" && BearerPrefix + r.value == header.value
  {
    var h := if header.Some? then header.value else "";
    if HasBearerPrefix(h) && h[|BearerPrefix|..] != "" then
      assert h == h[..|BearerPrefix|] + h[|BearerPrefix|..];
      Some(h[|BearerPrefix|..])
    else None
  }

  /** Prefixing a token and extracting it again gives the token back. */
  lemma TokenRoundTrip(token: string)
    requires token != ""
    ensures BearerToken(Some(BearerPrefix + token)) == Some(token)
  {
    var h := BearerPrefix + token;
    assert h[..|BearerPrefix|] == BearerPrefix;
    assert h[|BearerPrefix|..] == token;
  }

  /** A role is required only when one is named (an empty name requires none). */
  predicate RoleRequired(requiredRole: Option<string>)
  {
    requiredRole.Some? && requiredRole.value != ""
  }

  predicate RoleMismatch(requiredRole: Option<string>, p: Payload)
  {
    RoleRequired(requiredRole) && p.role != Some(requiredRole.value)
  }

  /**
   * The middleware as written. A verifier failure is thrown as the verifier's
   * own error, which carries no status, so the global error handler answers
   * 500 with the verifier's message.
   */
  function AuthenticateAsWritten(requiredRole: Option<string>, header: Option<string>,
                                 verify: string -> Verified): (r: Result<Payload>)
    ensures BearerToken(header).None? ==> r == Err(Unauthorized)
    ensures BearerToken(header).Some? && verify(BearerToken(header).value).Invalid? ==>
              r == Err(HttpError(500, verify(BearerToken(header).value).reason))
    ensures r.Ok? ==> BearerToken(header).Some? && verify(BearerToken(header).value) == Valid(r.value)
                      && !RoleMismatch(requiredRole, r.value)
  {
    match BearerToken(header)
    case None => Err(Unauthorized)
    case Some(token) =>
      match verify(token)
      case Invalid(reason) => Err(HttpError(500, reason))
      case Valid(p) => if RoleMismatch(requiredRole, p) then Err(Forbidden) else Ok(p)
  }

  /**
   * The middleware as intended: a missing or unverifiable token is 401, a
   * verified token with the wrong role is 403, and otherwise the payload
   * becomes the request's user.
   */
  function Authenticate(requiredRole: Option<string>, header: Option<string>,
                        verify: string -> Verified): (r: Result<Payload>)
    ensures r.Err? ==> r.error == Unauthorized || r.error == Forbidden
    ensures r.Err? && r.error == Forbidden <==>
              BearerToken(header).Some? && verify(BearerToken(header).value).Valid?
              && RoleMismatch(requiredRole, verify(BearerToken(header).value).payload)
    ensures r.Ok? <==>
              BearerToken(header).Some? && verify(BearerToken(header).value).Valid?
              && !RoleMismatch(requiredRole, verify(BearerToken(header).value).payload)
    ensures r.Ok? ==> verify(BearerToken(header).value) == Valid(r.value)
    ensures !RoleRequired(requiredRole) && BearerToken(header).Some? && verify(BearerToken(header).value).Valid? ==>
              r == Ok(verify(BearerToken(header).value).payload)
  {
    match BearerToken(header)
    case None => Err(Unauthorized)
    case Some(token) =>
      match verify(token)
      case Invalid(_) => Err(Unauthorized)
      case Valid(p) => if RoleMismatch(requiredRole, p) then Err(Forbidden) else Ok(p)
  }

  /** The two agree on every request except an unverifiable token. */
  lemma AuthenticateAgreesWhenVerified(requiredRole: Option<string>, header: Option<string>,
                                       verify: string -> Verified)
    requires BearerToken(header).None? || verify(BearerToken(header).value).Valid?
    ensures Authenticate(requiredRole, header, verify) == AuthenticateAsWritten(requiredRole, header, verify)
  {
  }

  function RejectAll(token: string): Verified
  {
    Invalid("invalid signature")
  }

  /** As written, a well-formed header with a token that fails verification is answered with 500. */
  lemma InvalidTokenGives500()
    ensures AuthenticateAsWritten(None, Some("Bearer abc"), RejectAll) == Err(HttpError(500, "invalid signature"))
    ensures Authenticate(None, Some("Bearer abc"), RejectAll) == Err(Unauthorized)
  {
    TokenRoundTrip("abc");
    assert BearerPrefix + "abc" == "Bearer abc";
  }
}
