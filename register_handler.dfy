/** The registration endpoint of the auth service: the checks it runs on a decoded
    request, in order, and the response each outcome gets. The body decoder and
    the registration service are oracles: the handler is given what decoding
    produced and what the service answers, and reports whether it called the
    service. */
module Registration {
  import opened Wrappers
  import opened Decimal

  const StatusBadRequest := 400
  const StatusCreated := 201

  const IdLengthMessage := "id_citizen must be exactly 10 digits"
  const IdLengthCode := "INVALID_ID_CITIZEN_LENGTH"

  /** The decoded registration request. */
  datatype RegisterRequest = RegisterRequest(idCitizen: int, email: string, password: string, name: string)

  /** A registered user as the service returns it; the identifier and the times
      are opaque values here. */
  datatype User = User(id: string, idCitizen: int, email: string, name: string, role: string,
                       createdAt: int, updatedAt: int)

  /** The body of a 201 response. */
  datatype UserResponse = UserResponse(id: string, idCitizen: int, email: string, name: string, role: string,
                                       createdAt: int, updatedAt: int)

  /** What the registration service answers: the new user, or a domain error
      (such as a user that already exists), named by its message. */
  datatype ServiceReply = Registered(user: User) | Rejected(error: string)

  /** The arguments of the call into the registration service. */
  datatype ServiceCall = ServiceCall(email: string, password: string, name: string, idCitizen: int)

  /** The responses the handler writes: the shared "invalid request body" and
      "required field" errors, an HTTP error with status, message and code, the
      rendering of a domain error, and a JSON body with a status. */
  datatype Response =
    | InvalidRequestBody
    | RequiredField
    | HttpError(status: int, message: string, code: string)
    | DomainError(error: string)
    | Json(status: int, body: UserResponse)

  datatype Outcome = Outcome(response: Response, call: Option<ServiceCall>)

  /** Every field the handler requires is present: a positive citizen number and
      non-empty email, password and name. */
  predicate HasRequiredFields(req: RegisterRequest)
  {
    req.idCitizen > 0 && req.email != "" && req.password != "" && req.name != ""
  }

  /** The user as the response shows it: every field copied unchanged. */
  function ToResponse(u: User): (r: UserResponse)
    ensures r.id == u.id && r.idCitizen == u.idCitizen && r.email == u.email && r.name == u.name
    ensures r.role == u.role && r.createdAt == u.createdAt && r.updatedAt == u.updatedAt
  {
    UserResponse(u.id, u.idCitizen, u.email, u.name, u.role, u.createdAt, u.updatedAt)
  }

  /** The handler: decode, required fields, the ten-digit citizen number, then the
      service call, each failing check ending the request. */
  function Register(decoded: Option<RegisterRequest>, service: ServiceReply): (o: Outcome)
    ensures decoded.None? ==> o == Outcome(InvalidRequestBody, None)
    ensures decoded.Some? && !HasRequiredFields(decoded.value) ==> o == Outcome(RequiredField, None)
    ensures o.call.Some? <==>
              decoded.Some? && HasRequiredFields(decoded.value) && |FormatInt(decoded.value.idCitizen)| == 10
    ensures o.call.Some? ==>
              var req := decoded.value;
              o.call.value == ServiceCall(req.email, req.password, req.name, req.idCitizen)
    ensures o.call.None? && decoded.Some? && HasRequiredFields(decoded.value) ==>
              o.response == HttpError(StatusBadRequest, IdLengthMessage, IdLengthCode)
    ensures o.call.Some? && service.Rejected? ==> o.response == DomainError(service.error)
    ensures o.call.Some? && service.Registered? ==> o.response == Json(StatusCreated, ToResponse(service.user))
  {
    match decoded
    case None => Outcome(InvalidRequestBody, None)
    case Some(req) =>
      if req.idCitizen <= 0 || req.email == "" || req.password == "" || req.name == "" then
        Outcome(RequiredField, None)
      else if |FormatInt(req.idCitizen)| != 10 then
        Outcome(HttpError(StatusBadRequest, IdLengthMessage, IdLengthCode), None)
      else
        var call := ServiceCall(req.email, req.password, req.name, req.idCitizen);
        match service
        case Rejected(error) => Outcome(DomainError(error), Some(call))
        case Registered(user) => Outcome(Json(StatusCreated, ToResponse(user)), Some(call))
  }

  /** The length check in numbers: a request with every required field passes it
      exactly when its citizen number lies between 1000000000 and 9999999999. */
  lemma TenDigitRange(req: RegisterRequest, service: ServiceReply)
    requires HasRequiredFields(req)
    ensures Register(Some(req), service).call.Some? <==> 1_000_000_000 <= req.idCitizen <= 9_999_999_999
    ensures !(1_000_000_000 <= req.idCitizen <= 9_999_999_999) ==>
              Register(Some(req), service).response == HttpError(StatusBadRequest, IdLengthMessage, IdLengthCode)
  {
    TenDigits(req.idCitizen);
  }

  /** A request is answered 201 exactly when it decodes, has every required field
      and a ten-digit citizen number, and the service registers the user; the body
      then shows the user the service returned. */
  lemma CreatedExactly(decoded: Option<RegisterRequest>, service: ServiceReply)
    ensures var o := Register(decoded, service);
            && (o.response.Json? <==>
                  && decoded.Some? && HasRequiredFields(decoded.value)
                  && 1_000_000_000 <= decoded.value.idCitizen <= 9_999_999_999
                  && service.Registered?)
            && (o.response.Json? ==> o.response == Json(StatusCreated, ToResponse(service.user)))
  {
    if decoded.Some? && HasRequiredFields(decoded.value) {
      TenDigitRange(decoded.value, service);
    }
  }

  /** What the service answers matters only once every check has passed: a request
      rejected by a check gets the same response whatever the service would say. */
  lemma ChecksComeFirst(decoded: Option<RegisterRequest>, service: ServiceReply, service': ServiceReply)
    requires Register(decoded, service).call.None?
    ensures Register(decoded, service) == Register(decoded, service')
  {
  }
}
