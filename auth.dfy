/** pkg/middleware/auth/auth.go: reading the bearer token from the
    `Authorization` header, and the decisions of the three handlers.
    Token validation and the claims' expiry and permission checks belong to
    packages the handlers call; here they are parameters: the validator
    answers the claims or `None` for an error, and the checks are
    predicates on the claims. */
module Auth {
  import opened Wrappers
  import opened Text

  /** What a handler does with a request: answer it with an error status,
      or pass it on with the claims its context then holds. */
  datatype Decision<C> = Respond(status: int, message: string) | CallNext(claims: Option<C>)

  const StatusUnauthorized: int := 401
  const StatusForbidden: int := 403

  /** `extractToken`: the header cut at single spaces must give exactly two
      parts, the first of them "bearer" in any letter case. */
  function ExtractToken(header: string): string
  {
    var parts := Split(header, ' ');
    if |parts| == 2 && ToLower(parts[0]) == "bearer" then parts[1] else ""
  }

  /** A scheme and a token joined by one space: the token comes back
      exactly when the scheme is "bearer" whatever its case. */
  lemma ExtractTokenOf(scheme: string, token: string)
    requires ' ' !in scheme && ' ' !in token
    ensures ExtractToken(scheme + " " + token) == if ToLower(scheme) == "bearer" then token else ""
  {
    SplitAround(scheme, token, ' ');
    SplitNoSeparator(scheme, ' ');
    SplitNoSeparator(token, ' ');
  }

  /** A header with no space, or with more than one, yields no token. */
  lemma ExtractTokenNeedsOneSpace(header: string)
    requires CountChar(header, ' ') != 1
    ensures ExtractToken(header) == ""
  {
    SplitLength(header, ' ');
  }

  /** A token that comes back holds no space, and the header is a bearer
      scheme, one space, and that token. */
  lemma ExtractTokenShape(header: string) returns (scheme: string)
    requires ExtractToken(header) != ""
    ensures ' ' !in ExtractToken(header) && ' ' !in scheme
    ensures ToLower(scheme) == "bearer"
    ensures header == scheme + " " + ExtractToken(header)
  {
    var parts := Split(header, ' ');
    JoinSplit(header, ' ');
    scheme := parts[0];
    assert parts[1..] == [parts[1]];
    assert Join(parts, [' ']) == parts[0] + [' '] + parts[1];
  }

  /** The scheme is compared without regard to case. */
  lemma SchemeCaseInsensitive(s1: string, s2: string, token: string)
    requires ' ' !in s1 && ' ' !in s2 && ' ' !in token
    requires ToLower(s1) == ToLower(s2)
    ensures ExtractToken(s1 + " " + token) == ExtractToken(s2 + " " + token)
  {
    ExtractTokenOf(s1, token);
    ExtractTokenOf(s2, token);
  }

  lemma LowerBearer()
    ensures ToLower("Bearer") == "bearer" && ToLower("BEARER") == "bearer" && ToLower("bearer") == "bearer"
    ensures ToLower("Basic") != "bearer"
  {
    assert ToLower("Basic")[0] == 'b' && ToLower("Basic")[1] == 'a';
  }

  /** "BEARER x" and "bearer x" both give "x"; "Basic x" gives nothing. */
  lemma ExtractTokenSchemes()
    ensures ExtractToken("BEARER x") == "x" && ExtractToken("bearer x") == "x"
    ensures ExtractToken("Basic x") == ""
  {
    LowerBearer();
    assert "BEARER x" == "BEARER" + " " + "x";
    ExtractTokenOf("BEARER", "x");
    assert "bearer x" == "bearer" + " " + "x";
    ExtractTokenOf("bearer", "x");
    assert "Basic x" == "Basic" + " " + "x";
    ExtractTokenOf("Basic", "x");
  }

  /** A second space after the scheme's leaves no token. */
  lemma ExtraSpaceNoToken(scheme: string, rest: string)
    requires ' ' in rest
    ensures ExtractToken(scheme + " " + rest) == ""
  {
    var k :| 0 <= k < |rest| && rest[k] == ' ';
    assert rest == rest[..k] + [' '] + rest[k + 1..];
    SplitAround(rest[..k], rest[k + 1..], ' ');
    SplitAround(scheme, rest, ' ');
  }

  /** "Bearer a b", "Bearer  x" and the empty header give nothing. */
  lemma ExtractTokenSpacing()
    ensures ExtractToken("Bearer a b") == "" && ExtractToken("Bearer  x") == ""
    ensures ExtractToken("") == ""
  {
    assert "Bearer a b" == "Bearer" + " " + "a b";
    assert "a b"[1] == ' ';
    ExtraSpaceNoToken("Bearer", "a b");
    assert "Bearer  x" == "Bearer" + " " + " x";
    assert " x"[0] == ' ';
    ExtraSpaceNoToken("Bearer", " x");
  }

  /** `Authenticate`: no token, a token the validator refuses, and an
      expired token are each answered 401 with their own message; only a
      valid, unexpired token passes, its claims stored in the context. */
  function Authenticate<C>(header: string, validate: string -> Option<C>, isExpired: C -> bool): Decision<C>
  {
    var token := ExtractToken(header);
    if token == "" then Respond(StatusUnauthorized, "Unauthorized")
    else match validate(token)
      case None => Respond(StatusUnauthorized, "Invalid token")
      case Some(c) =>
        if isExpired(c) then Respond(StatusUnauthorized, "Token expired") else CallNext(Some(c))
  }

  /** Without a token the validator is never consulted: any validator and
      expiry check give the same answer. */
  lemma NoTokenNoValidation<C>(header: string, v1: string -> Option<C>, e1: C -> bool,
                                v2: string -> Option<C>, e2: C -> bool)
    requires ExtractToken(header) == ""
    ensures Authenticate(header, v1, e1) == Authenticate(header, v2, e2) == Respond(StatusUnauthorized, "Unauthorized")
  {
  }

  /** The request goes on exactly when the token validates and has not
      expired, and then with the validator's claims; every refusal is a
      401. */
  lemma AuthenticatePasses<C>(header: string, validate: string -> Option<C>, isExpired: C -> bool)
    ensures var d := Authenticate(header, validate, isExpired);
      var token := ExtractToken(header);
      (d.CallNext? <==> token != "" && validate(token).Some? && !isExpired(validate(token).value)) &&
      (d.CallNext? ==> d.claims == validate(token)) &&
      (token != "" && validate(token).None? ==> d == Respond(StatusUnauthorized, "Invalid token")) &&
      (token != "" && validate(token).Some? && isExpired(validate(token).value) ==>
         d == Respond(StatusUnauthorized, "Token expired")) &&
      (d.Respond? ==> d.status == StatusUnauthorized)
  {
  }

  /** The guard the two permission handlers share: 401 without claims,
      403 when the claims fail the check, otherwise the request goes on
      with its context unchanged. */
  function Guard<C>(claims: Option<C>, permitted: C -> bool): Decision<C>
  {
    match claims
    case None => Respond(StatusUnauthorized, "Unauthorized")
    case Some(c) => if permitted(c) then CallNext(claims) else Respond(StatusForbidden, "Forbidden")
  }

  /** `RequirePermissions`: the claims must hold all of `required`. */
  function RequirePermissions<C, P>(required: seq<P>, claims: Option<C>, hasAll: (C, seq<P>) -> bool): Decision<C>
  {
    Guard(claims, c => hasAll(c, required))
  }

  /** `RequireAnyPermission`: the claims must hold one of `permissions`. */
  function RequireAnyPermission<C, P>(permissions: seq<P>, claims: Option<C>, hasAny: (C, seq<P>) -> bool): Decision<C>
  {
    Guard(claims, c => hasAny(c, permissions))
  }

  /** `Authenticate` followed by a permission guard: a request reaches the
      handler exactly when its token is valid and unexpired and its claims
      pass the check; authentication failures stay 401, and 403 is only
      ever given to an authenticated request. */
  lemma AuthenticateThenGuard<C>(header: string, validate: string -> Option<C>, isExpired: C -> bool, permitted: C -> bool)
    ensures var a := Authenticate(header, validate, isExpired);
      var d := if a.CallNext? then Guard(a.claims, permitted) else a;
      var token := ExtractToken(header);
      (d.CallNext? <==> token != "" && validate(token).Some? &&
                        !isExpired(validate(token).value) && permitted(validate(token).value)) &&
      (d.Respond? && d.status == StatusForbidden ==> a.CallNext?) &&
      (a.Respond? ==> d == a)
  {
  }

  /** The guards never change the context they pass on. */
  lemma GuardKeepsContext<C>(claims: Option<C>, permitted: C -> bool)
    ensures Guard(claims, permitted).CallNext? ==> Guard(claims, permitted).claims == claims && claims.Some?
    ensures Guard(claims, permitted).Respond? ==>
      Guard(claims, permitted).status == if claims.None? then StatusUnauthorized else StatusForbidden
  {
  }

  /** The two permission handlers: 401 without claims, 403 when the claims
      lack all (respectively any) of the permissions, and otherwise the
      request passes with the same claims. */
  lemma PermissionHandlers<C, P>(perms: seq<P>, claims: Option<C>, hasAll: (C, seq<P>) -> bool, hasAny: (C, seq<P>) -> bool)
    ensures claims.None? ==>
      RequirePermissions(perms, claims, hasAll) == Respond(StatusUnauthorized, "Unauthorized") &&
      RequireAnyPermission(perms, claims, hasAny) == Respond(StatusUnauthorized, "Unauthorized")
    ensures claims.Some? ==>
      RequirePermissions(perms, claims, hasAll)
        == (if hasAll(claims.value, perms) then CallNext(claims) else Respond(StatusForbidden, "Forbidden"))
    ensures claims.Some? ==>
      RequireAnyPermission(perms, claims, hasAny)
        == (if hasAny(claims.value, perms) then CallNext(claims) else Respond(StatusForbidden, "Forbidden"))
  {
  }
}
