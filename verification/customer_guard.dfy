/** The customer guard (`customerAuth`) and the role test of its admin wrapper
    (`customerAdminAuth`), middleware/customerAuth.middleware.js. Unlike the product
    guard it has no permission step, and it looks the customer up by the token. */
module CustomerGuard {
  import opened JsText
  import opened Bearer

  /** The customer fields the guards read: `_id` and `email`. */
  datatype Customer = Customer(id: string, email: Option<string>)

  /** What a passing request carries on: `req.customer` and `req.customerId`. */
  datatype CustomerRequest = CustomerRequest(customer: Customer, customerId: string)

  /** `customerAuth`: missing token, then invalid token, then the lookup of the
      customer whose id is the token. */
  function CustomerAuth(authorization: Option<string>,
                        findById: string -> Lookup<Customer>): (d: Decision<CustomerRequest>)
    ensures d.Next? ==> ExtractToken(authorization).Some?
    ensures d.Next? ==> findById(ExtractToken(authorization).value) == Found(d.ctx.customer)
    ensures d.Next? ==> !Malformed(ExtractToken(authorization).value)
    ensures d.Next? ==> d.ctx.customerId == d.ctx.customer.id
  {
    var token := ExtractToken(authorization);
    if NoToken(token) then Deny(MissingToken)
    else if Malformed(token.value) then Deny(InvalidToken)
    else
      match findById(token.value)
      case Threw => Deny(ServerError)
      case NotFound => Deny(CustomerNotFound)
      case Found(customer) => Next(CustomerRequest(customer, customer.id))
  }

  /** The checks decide in a fixed order: each refusal happens exactly when every
      earlier check passed and its own check failed, and only a well-formed token
      ever reaches the lookup. */
  lemma CheckOrder(authorization: Option<string>, findById: string -> Lookup<Customer>)
    ensures var token := ExtractToken(authorization);
      var d := CustomerAuth(authorization, findById);
      && (d == Deny(MissingToken) <==> NoToken(token))
      && (d == Deny(InvalidToken) <==> !NoToken(token) && Malformed(token.value))
      && (d.Next? || d.reason in {CustomerNotFound, ServerError} ==>
            !NoToken(token) && !Malformed(token.value))
      && d != Deny(PermissionDenied) && d != Deny(ProductNotFound)
  {
  }

  /** 401 "missing token" exactly for an absent header, a header without the
      "Bearer " prefix, or the bare prefix. */
  lemma MissingTokenIff(authorization: Option<string>, findById: string -> Lookup<Customer>)
    ensures CustomerAuth(authorization, findById) == Deny(MissingToken) <==>
      authorization.None? || !StartsWith(authorization.value, Prefix) || authorization.value == Prefix
  {
    NoTokenIff(authorization);
  }

  /** For a non-empty token, 401 "invalid token" exactly when it is "invalid-token"
      or shorter than 10 characters, and then whatever the database holds. */
  lemma InvalidTokenIff(t: string, findById: string -> Lookup<Customer>,
                        findById': string -> Lookup<Customer>)
    requires t != ""
    ensures CustomerAuth(Some(Prefix + t), findById) == Deny(InvalidToken) <==>
      t == "invalid-token" || |t| < 10
    ensures CustomerAuth(Some(Prefix + t), findById) == Deny(InvalidToken) ==>
      CustomerAuth(Some(Prefix + t), findById') == Deny(InvalidToken)
  {
    ExtractAfterPrefix(t);
  }

  /** The lookup key is the token itself: two databases that agree on the token
      give the same outcome. */
  lemma LookupKeyIsToken(t: string, findById: string -> Lookup<Customer>,
                         findById': string -> Lookup<Customer>)
    requires findById(t) == findById'(t)
    ensures CustomerAuth(Some(Prefix + t), findById) == CustomerAuth(Some(Prefix + t), findById')
  {
    ExtractAfterPrefix(t);
  }

  /** For a well-formed token there is no permission step: a customer found under
      the token passes with that customer attached, an unknown one is 401 (not
      404), and a rejected lookup is 500. */
  lemma LookupStep(t: string, findById: string -> Lookup<Customer>)
    requires t != "" && !Malformed(t)
    ensures findById(t).Found? ==>
      CustomerAuth(Some(Prefix + t), findById)
        == Next(CustomerRequest(findById(t).record, findById(t).record.id))
    ensures findById(t).NotFound? ==>
      CustomerAuth(Some(Prefix + t), findById) == Deny(CustomerNotFound)
      && Status(CustomerNotFound) == 401
    ensures findById(t).Threw? ==> CustomerAuth(Some(Prefix + t), findById) == Deny(ServerError)
  {
    ExtractAfterPrefix(t);
  }

  /** The role test of `customerAdminAuth`: the customer has an email that mentions
      "admin". */
  predicate IsCustomerAdmin(c: Customer) {
    c.email.Some? && Contains(c.email.value, "admin")
  }

  /** `customerAdminAuth` with one reply per request: a refusal of the inner guard
      is passed on unchanged, and a found customer goes on only if the role test
      passes, otherwise 403. */
  function CustomerAdminAuth(authorization: Option<string>,
                             findById: string -> Lookup<Customer>): (d: Decision<CustomerRequest>)
    ensures d.Next? <==>
      CustomerAuth(authorization, findById).Next?
      && IsCustomerAdmin(CustomerAuth(authorization, findById).ctx.customer)
    ensures d.Next? ==> d == CustomerAuth(authorization, findById)
    ensures CustomerAuth(authorization, findById).Deny? ==> d == CustomerAuth(authorization, findById)
    ensures CustomerAuth(authorization, findById).Next? && d.Deny? ==> d.reason == NotAdmin
  {
    match CustomerAuth(authorization, findById)
    case Deny(r) => Deny(r)
    case Next(ctx) => if IsCustomerAdmin(ctx.customer) then Next(ctx) else Deny(NotAdmin)
  }

  /** A customer without an email is never an admin, whatever the token says. */
  lemma NoEmailNoAdmin(authorization: Option<string>, findById: string -> Lookup<Customer>)
    requires CustomerAuth(authorization, findById).Next?
    requires CustomerAuth(authorization, findById).ctx.customer.email.None?
    ensures CustomerAdminAuth(authorization, findById) == Deny(NotAdmin)
  {
  }

  /** `customerAdminAuth` as written: after the inner guard it checks
      `req.customer`. When the inner guard refused, it has already answered, and the
      wrapper answers again with 401; Express rejects a second answer by throwing,
      and the catch block's 500 answer throws the same way. */
  function CustomerAdminAsWritten(authorization: Option<string>,
                                  findById: string -> Lookup<Customer>): (rs: seq<Reply>)
    ensures |rs| >= 1
    ensures CustomerAuth(authorization, findById).Deny? ==> |rs| == 3
  {
    match CustomerAuth(authorization, findById)
    case Deny(r) => [Sent(Status(r)), Sent(Status(NotAuthenticated)), Sent(500)]
    case Next(ctx) => if IsCustomerAdmin(ctx.customer) then [Continued] else [Sent(Status(NotAdmin))]
  }

  /** An unknown customer makes the wrapper as written try to answer three times. */
  lemma CustomerAdminAnswersRepeatedly(t: string, findById: string -> Lookup<Customer>)
    requires t != "" && !Malformed(t) && findById(t).NotFound?
    ensures CustomerAdminAsWritten(Some(Prefix + t), findById) == [Sent(401), Sent(401), Sent(500)]
  {
    ExtractAfterPrefix(t);
  }

  /** The corrected wrapper answers once, and that answer is the first one the
      wrapper as written gives, which is the one the client receives. */
  lemma CustomerAdminAnswersOnce(authorization: Option<string>, findById: string -> Lookup<Customer>)
    ensures |Replies(CustomerAdminAuth(authorization, findById))| == 1
    ensures Replies(CustomerAdminAuth(authorization, findById))[0]
      == CustomerAdminAsWritten(authorization, findById)[0]
  {
  }
}
