/** What the product guard (productAuth.middleware.js) and the customer guard
    (middleware/customerAuth.middleware.js) share: reading the token out of the
    `Authorization` header, the dummy token test, and the shape of a guard's outcome. */
module Bearer {
  import opened JsText

  /** The scheme prefix the header must start with, trailing space included. */
  const Prefix: string := "Bearer "

  /** The one literal token both guards refuse outright. */
  const RejectedToken: string := "invalid-token"

  /** Tokens shorter than this are refused. */
  const MinTokenLength: nat := 10

  /** Token extraction: a header that starts with "Bearer " yields the rest of the
      header (the first seven characters dropped); anything else yields no token. */
  function ExtractToken(authorization: Option<string>): (token: Option<string>)
    ensures token.Some? <==> authorization.Some? && StartsWith(authorization.value, Prefix)
    ensures token.Some? ==> authorization == Some(Prefix + token.value)
  {
    if Truthy(authorization) && StartsWith(authorization.value, Prefix) then
      var t := authorization.value[|Prefix|..];
      assert authorization.value == Prefix + t;
      Some(t)
    else None
  }

  /** Extraction inverts prefixing: whatever follows "Bearer " comes back out. */
  lemma ExtractAfterPrefix(t: string)
    ensures ExtractToken(Some(Prefix + t)) == Some(t)
  {
    assert StartsWith(Prefix + t, Prefix);
  }

  /** `!token`: there is no token, or it is the empty string. */
  predicate NoToken(token: Option<string>) {
    !Truthy(token)
  }

  /** The dummy validation: the literal "invalid-token" or anything too short. */
  predicate Malformed(t: string) {
    t == RejectedToken || |t| < MinTokenLength
  }

  /** A header yields no usable token exactly when it is absent, does not start
      with "Bearer ", or is "Bearer " and nothing more. */
  lemma NoTokenIff(authorization: Option<string>)
    ensures NoToken(ExtractToken(authorization)) <==>
      authorization.None? || !StartsWith(authorization.value, Prefix) || authorization.value == Prefix
  {
    if authorization.Some? && StartsWith(authorization.value, Prefix) {
      assert authorization.value == Prefix + ExtractToken(authorization).value;
    }
  }

  /** Why a guard refused a request. */
  datatype Rejection =
    | MissingToken      // no usable token
    | InvalidToken      // the dummy validation failed
    | PermissionDenied  // the product permission test failed
    | ProductNotFound   // the product named by the route does not exist
    | CustomerNotFound  // no customer has the token as its id
    | NotAdmin          // an admin wrapper's role test failed
    | NotAuthenticated  // an admin wrapper found no authenticated request
    | ServerError       // the lookup threw, caught by the guard's catch block

  /** The HTTP status each refusal is answered with. */
  function Status(r: Rejection): (code: int)
    ensures code in {401, 403, 404, 500}
    ensures code == 401 <==> r in {MissingToken, InvalidToken, CustomerNotFound, NotAuthenticated}
    ensures code == 403 <==> r in {PermissionDenied, NotAdmin}
    ensures code == 404 <==> r == ProductNotFound
  {
    match r
    case MissingToken => 401
    case InvalidToken => 401
    case PermissionDenied => 403
    case ProductNotFound => 404
    case CustomerNotFound => 401
    case NotAdmin => 403
    case NotAuthenticated => 401
    case ServerError => 500
  }

  /** A guard's outcome: `next()` with what it attached to the request, or a refusal. */
  datatype Decision<C> = Next(ctx: C) | Deny(reason: Rejection)

  /** What a record lookup (`findById`) settles to: a record, `null`, or a rejected
      promise (for instance an id the database cannot parse). */
  datatype Lookup<R> = Found(record: R) | NotFound | Threw

  /** One observable action of a handler: a `res.status(code).json(...)` call, or a
      `next()` call. */
  datatype Reply = Sent(status: int) | Continued

  /** The replies a decision produces: exactly one. */
  function Replies<C>(d: Decision<C>): (rs: seq<Reply>)
    ensures |rs| == 1
    ensures rs[0].Continued? <==> d.Next?
    ensures d.Deny? ==> rs[0] == Sent(Status(d.reason))
  {
    match d
    case Next(_) => [Continued]
    case Deny(r) => [Sent(Status(r))]
  }
}
