/** The product guard (`productAuth`) and the role test of its admin wrapper
    (`productAdminAuth`), productAuth.middleware.js. A guard is a pure decision over
    the `Authorization` header, the route parameters and a record lookup. */
module ProductGuard {
  import opened JsText
  import opened Bearer

  /** The route parameters the guard reads (`req.params.id`, `req.params.dressid`). */
  datatype RouteParams = RouteParams(id: Option<string>, dressid: Option<string>)

  /** What a passing request carries on: `req.userId`, `req.authenticated` and,
      when a product id was in the route, `req.product`. */
  datatype ProductRequest<P> = ProductRequest(userId: string, authenticated: bool, product: Option<P>)

  /** `req.params.id || req.params.dressid`, or nothing when both are falsy. */
  function ProductId(params: RouteParams): (pid: Option<string>)
    ensures pid.Some? <==> Truthy(params.id) || Truthy(params.dressid)
    ensures pid.Some? ==> pid.value != ""
    ensures Truthy(params.id) ==> pid == params.id
    ensures !Truthy(params.id) ==> pid.None? || pid == params.dressid
  {
    if Truthy(params.id) then params.id
    else if Truthy(params.dressid) then params.dressid
    else None
  }

  /** The dummy permission test: the token mentions "admin" or "manager", or is
      longer than 15 characters. */
  predicate HasPermission(token: string) {
    Contains(token, "admin") || Contains(token, "manager") || |token| > 15
  }

  /** `productAuth`: missing token, then invalid token, then permission, then (only
      when the route names a product) the product lookup. */
  function ProductAuth<P>(authorization: Option<string>, params: RouteParams,
                          findById: string -> Lookup<P>): (d: Decision<ProductRequest<P>>)
    ensures d.Next? ==> authorization == Some(Prefix + d.ctx.userId)
    ensures d.Next? ==> d.ctx.authenticated
    ensures d.Next? ==> !Malformed(d.ctx.userId) && HasPermission(d.ctx.userId)
    ensures d.Next? ==> (d.ctx.product.Some? <==> ProductId(params).Some?)
    ensures d.Next? && d.ctx.product.Some? ==>
      findById(ProductId(params).value) == Found(d.ctx.product.value)
  {
    var token := ExtractToken(authorization);
    if NoToken(token) then Deny(MissingToken)
    else if Malformed(token.value) then Deny(InvalidToken)
    else if !HasPermission(token.value) then Deny(PermissionDenied)
    else
      match ProductId(params)
      case None => Next(ProductRequest(token.value, true, None))
      case Some(pid) =>
        match findById(pid)
        case Threw => Deny(ServerError)
        case NotFound => Deny(ProductNotFound)
        case Found(product) => Next(ProductRequest(token.value, true, Some(product)))
  }

  /** The checks decide in a fixed order: each refusal happens exactly when every
      earlier check passed and its own check failed, and only a request that passed
      all three token checks ever reaches the lookup. */
  lemma CheckOrder<P>(authorization: Option<string>, params: RouteParams, findById: string -> Lookup<P>)
    ensures var token := ExtractToken(authorization);
      var d := ProductAuth(authorization, params, findById);
      && (d == Deny(MissingToken) <==> NoToken(token))
      && (d == Deny(InvalidToken) <==> !NoToken(token) && Malformed(token.value))
      && (d == Deny(PermissionDenied) <==>
            !NoToken(token) && !Malformed(token.value) && !HasPermission(token.value))
      && (d.Next? || d.reason in {ProductNotFound, ServerError} ==>
            !NoToken(token) && !Malformed(token.value) && HasPermission(token.value))
      && (d.Deny? && d.reason in {ProductNotFound, ServerError} ==> ProductId(params).Some?)
  {
  }

  /** 401 "missing token" exactly for an absent header, a header without the
      "Bearer " prefix, or the bare prefix. */
  lemma MissingTokenIff<P>(authorization: Option<string>, params: RouteParams, findById: string -> Lookup<P>)
    ensures ProductAuth(authorization, params, findById) == Deny(MissingToken) <==>
      authorization.None? || !StartsWith(authorization.value, Prefix) || authorization.value == Prefix
  {
    NoTokenIff(authorization);
  }

  /** For a non-empty token, 401 "invalid token" exactly when it is "invalid-token"
      or shorter than 10 characters. */
  lemma InvalidTokenIff<P>(t: string, params: RouteParams, findById: string -> Lookup<P>)
    requires t != ""
    ensures ProductAuth(Some(Prefix + t), params, findById) == Deny(InvalidToken) <==>
      t == "invalid-token" || |t| < 10
  {
    ExtractAfterPrefix(t);
  }

  /** For a token that passed validation, 403 exactly when it mentions neither
      "admin" nor "manager" and has at most 15 characters. */
  lemma PermissionDeniedIff<P>(t: string, params: RouteParams, findById: string -> Lookup<P>)
    requires t != "" && !Malformed(t)
    ensures ProductAuth(Some(Prefix + t), params, findById) == Deny(PermissionDenied) <==>
      !Contains(t, "admin") && !Contains(t, "manager") && |t| <= 15
  {
    ExtractAfterPrefix(t);
  }

  /** Every token longer than 15 characters other than "invalid-token" gets past
      the three token checks: only the lookup can still refuse it. */
  lemma LongTokenPassesChecks<P>(t: string, params: RouteParams, findById: string -> Lookup<P>)
    requires |t| > 15
    ensures var d := ProductAuth(Some(Prefix + t), params, findById);
      d.Next? || d.reason in {ProductNotFound, ServerError}
  {
    ExtractAfterPrefix(t);
  }

  /** The checks run in order: a request refused by a token check is refused the
      same way whatever the route and whatever the database holds, so the lookup is
      never reached. */
  lemma TokenRefusalIgnoresLookup<P>(authorization: Option<string>,
                                     params: RouteParams, findById: string -> Lookup<P>,
                                     params': RouteParams, findById': string -> Lookup<P>)
    requires ProductAuth(authorization, params, findById).Deny?
    requires ProductAuth(authorization, params, findById).reason in {MissingToken, InvalidToken, PermissionDenied}
    ensures ProductAuth(authorization, params', findById') == ProductAuth(authorization, params, findById)
  {
  }

  /** The lookup step for a token that passed its checks: no product id in the
      route means no lookup; otherwise a missing product is 404, a rejected lookup
      is 500, and a found product is attached to the request. */
  lemma LookupStep<P>(t: string, params: RouteParams, findById: string -> Lookup<P>)
    requires t != "" && !Malformed(t) && HasPermission(t)
    ensures ProductId(params).None? ==>
      ProductAuth(Some(Prefix + t), params, findById) == Next(ProductRequest(t, true, None))
    ensures ProductId(params).Some? && findById(ProductId(params).value).NotFound? ==>
      ProductAuth(Some(Prefix + t), params, findById) == Deny(ProductNotFound)
    ensures ProductId(params).Some? && findById(ProductId(params).value).Threw? ==>
      ProductAuth(Some(Prefix + t), params, findById) == Deny(ServerError)
    ensures ProductId(params).Some? && findById(ProductId(params).value).Found? ==>
      ProductAuth(Some(Prefix + t), params, findById)
        == Next(ProductRequest(t, true, Some(findById(ProductId(params).value).record)))
  {
    ExtractAfterPrefix(t);
  }

  /** The role test of `productAdminAuth`: the user id mentions "admin" or "super". */
  predicate IsProductAdmin(userId: string) {
    Contains(userId, "admin") || Contains(userId, "super")
  }

  /** `productAdminAuth` with one reply per request: a refusal of the inner guard is
      passed on unchanged, and a passing request goes on only if its user id passes
      the role test, otherwise 403. */
  function ProductAdminAuth<P>(authorization: Option<string>, params: RouteParams,
                               findById: string -> Lookup<P>): (d: Decision<ProductRequest<P>>)
    ensures d.Next? <==>
      ProductAuth(authorization, params, findById).Next?
      && IsProductAdmin(ProductAuth(authorization, params, findById).ctx.userId)
    ensures d.Next? ==> d == ProductAuth(authorization, params, findById)
    ensures ProductAuth(authorization, params, findById).Deny? ==>
      d == ProductAuth(authorization, params, findById)
    ensures ProductAuth(authorization, params, findById).Next? && d.Deny? ==> d.reason == NotAdmin
  {
    match ProductAuth(authorization, params, findById)
    case Deny(r) => Deny(r)
    case Next(ctx) => if IsProductAdmin(ctx.userId) then Next(ctx) else Deny(NotAdmin)
  }

  /** A token granted admin access without mentioning "admin" got past the
      permission step some other way: it mentions "manager" or is long. */
  lemma SuperNeedsPermission<P>(t: string, params: RouteParams, findById: string -> Lookup<P>)
    requires ProductAdminAuth(Some(Prefix + t), params, findById).Next?
    requires !Contains(t, "admin")
    ensures Contains(t, "super")
    ensures Contains(t, "manager") || |t| > 15
  {
    ExtractAfterPrefix(t);
  }

  /** `productAdminAuth` as written: it runs the inner guard with a do-nothing
      `next`, then checks `req.authenticated`. When the inner guard refused, it has
      already answered, and the wrapper answers again with 401; Express rejects a
      second answer by throwing, and the catch block's 500 answer throws the same
      way. */
  function ProductAdminAsWritten<P>(authorization: Option<string>, params: RouteParams,
                                    findById: string -> Lookup<P>): (rs: seq<Reply>)
    ensures |rs| >= 1
    ensures ProductAuth(authorization, params, findById).Deny? ==> |rs| == 3
  {
    match ProductAuth(authorization, params, findById)
    case Deny(r) => [Sent(Status(r)), Sent(Status(NotAuthenticated)), Sent(500)]
    case Next(ctx) => if IsProductAdmin(ctx.userId) then [Continued] else [Sent(Status(NotAdmin))]
  }

  /** Without a header, the wrapper as written tries to answer three times. */
  lemma ProductAdminAnswersRepeatedly<P>(params: RouteParams, findById: string -> Lookup<P>)
    ensures ProductAdminAsWritten(None, params, findById) == [Sent(401), Sent(401), Sent(500)]
  {
  }

  /** The corrected wrapper answers once, and that answer is the first one the
      wrapper as written gives, which is the one the client receives. */
  lemma ProductAdminAnswersOnce<P>(authorization: Option<string>, params: RouteParams,
                                   findById: string -> Lookup<P>)
    ensures |Replies(ProductAdminAuth(authorization, params, findById))| == 1
    ensures Replies(ProductAdminAuth(authorization, params, findById))[0]
      == ProductAdminAsWritten(authorization, params, findById)[0]
  {
  }
}
