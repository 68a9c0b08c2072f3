/** The citizen validator of the auth service: a login token kept in a cache that
    stays valid for fourteen minutes, and the classification of the affiliation
    service's answer by HTTP status code.

    The HTTP calls are oracles: the caller passes the reply each call would get,
    and the methods report which calls they made. Clock readings are parameters,
    in nanoseconds, the unit of Go's `time.Duration`. */
module CitizenValidation {
  import opened Wrappers
  import opened Json
  import opened Decimal
  import opened Text

  const StatusOK := 200
  const StatusNoContent := 204
  const StatusBadRequest := 400
  const StatusNotFound := 404

  /** How long a login token is trusted: fourteen minutes. */
  const TokenLifetime: int := 14 * 60 * 1_000_000_000

  const CheckPath := "/api/v1/affiliation/check/"

  const EligibleMessage := "Citizen is eligible for registration"
  const AffiliatedMessage := "Citizen is already affiliated and cannot be registered again"
  const InvalidIdMessage := "Invalid citizen ID format"
  const NotFoundMessage := "Citizen not found in government system"

  // ---------------------------------------------------------------------------
  // Logging in

  /** The login reply body as the decoder reads it into a struct with one `access`
      field: the field's value ("" when the field is missing or null), or a body
      that does not decode. */
  datatype LoginBody = Access(token: string) | Undecodable

  /** What the login request gets: no answer at all, or a status and a body. */
  datatype LoginReply = LoginUnreachable(cause: string) | LoginAnswered(status: int, body: LoginBody)

  datatype AuthError =
    | LoginRequestFailed(cause: string)
    | LoginRejected(status: int)
    | LoginUndecodable

  /** The two cache fields of the validator. */
  datatype TokenCache = TokenCache(token: string, expiresAt: int)

  /** A cached token is used when it is non-empty and the clock is strictly before
      its expiry. */
  predicate Fresh(c: TokenCache, now: int)
  {
    c.token != "" && now < c.expiresAt
  }

  /** The outcome of asking for a token: the new cache, the token or the error, and
      whether a login request was sent. */
  datatype TokenOutcome = TokenOutcome(cache: TokenCache, result: Result<string, AuthError>, loggedIn: bool)

  /** Asking for a token at time `now`; `later` is the clock reading once the login
      reply has been decoded, from which the new token's lifetime is counted. */
  function Refresh(c: TokenCache, now: int, later: int, login: LoginReply): (o: TokenOutcome)
    ensures !o.loggedIn <==> Fresh(c, now)
    ensures !o.loggedIn ==> o.cache == c && o.result == Success(c.token)
    ensures o.result.Failure? ==> o.cache == c
    ensures o.result.Success? && o.loggedIn ==>
              login.LoginAnswered? && login.status == StatusOK && login.body.Access?
              && o.result.value == login.body.token
              && o.cache == TokenCache(login.body.token, later + TokenLifetime)
  {
    if Fresh(c, now) then TokenOutcome(c, Success(c.token), false)
    else
      match login
      case LoginUnreachable(cause) => TokenOutcome(c, Failure(LoginRequestFailed(cause)), true)
      case LoginAnswered(status, body) =>
        if status != StatusOK then TokenOutcome(c, Failure(LoginRejected(status)), true)
        else match body
          case Undecodable => TokenOutcome(c, Failure(LoginUndecodable), true)
          case Access(token) => TokenOutcome(TokenCache(token, later + TokenLifetime), Success(token), true)
  }

  /** The error a login reply leads to when the cache cannot be used. */
  lemma LoginErrors(c: TokenCache, now: int, later: int, login: LoginReply)
    requires !Fresh(c, now)
    ensures var o := Refresh(c, now, later, login);
            && (login.LoginUnreachable? ==> o.result == Failure(LoginRequestFailed(login.cause)))
            && (login.LoginAnswered? && login.status != StatusOK ==> o.result == Failure(LoginRejected(login.status)))
            && (login == LoginAnswered(StatusOK, Undecodable) ==> o.result == Failure(LoginUndecodable))
            && (o.result.Success? <==> login.LoginAnswered? && login.status == StatusOK && login.body.Access?)
  {
  }

  /** A non-empty token obtained by logging in is served from the cache, with no
      new login, by every later request made before fourteen minutes have passed
      since `later`; from then on the next request logs in again. */
  lemma TokenReusedForFourteenMinutes(c: TokenCache, now: int, later: int, login: LoginReply,
                                      now': int, later': int, login': LoginReply)
    requires var o := Refresh(c, now, later, login); o.loggedIn && o.result.Success?
    ensures var o := Refresh(c, now, later, login);
            var o' := Refresh(o.cache, now', later', login');
            && (o.result.value != "" && now' < later + TokenLifetime ==>
                  !o'.loggedIn && o'.result == o.result && o'.cache == o.cache)
            && (now' >= later + TokenLifetime ==> o'.loggedIn)
  {
  }

  /** An empty access token from a login is handed out once but never served from
      the cache: the next request logs in again. */
  lemma EmptyTokenNeverCached(c: TokenCache, now: int, later: int, login: LoginReply, now': int, later': int, login': LoginReply)
    requires !Fresh(c, now) && login == LoginAnswered(StatusOK, Access(""))
    ensures var o := Refresh(c, now, later, login);
            Refresh(o.cache, now', later', login').loggedIn
  {
  }

  // ---------------------------------------------------------------------------
  // Classifying the affiliation service's answer

  /** What the affiliation check request gets: no answer, a body that could not be
      read, or a status with the body's text and the body parsed as a JSON object
      (None when it does not parse; `Some` of the empty map for `null`). */
  datatype AffiliationReply =
    | CallFailed(cause: string)
    | ReadFailed(cause: string)
    | Answered(status: int, body: string, parsed: Option<Object>)

  /** The validator's positive answer. */
  datatype ValidationResponse = ValidationResponse(citizenExists: bool, message: string)

  datatype ValidationError =
    | AuthFailed(auth: AuthError)
    | AffiliationCallFailed(cause: string)
    | BodyReadFailed(cause: string)
    | BadRequest(message: string)
    | UnexpectedStatus(status: int)

  /** The string member `key` of a parsed body, or `default`. */
  function MemberOr(parsed: Option<Object>, key: string, default: string): (m: string)
    ensures StringMember(parsed, key).Some? ==> m == StringMember(parsed, key).value
    ensures StringMember(parsed, key).None? ==> m == default
  {
    StringMember(parsed, key).GetOr(default)
  }

  /** The answer for each status code: 200 — not affiliated, may register; 204 —
      already affiliated; 400 — an error; 404 — not known, may register; anything
      else — an error. */
  function Classify(status: int, body: string, parsed: Option<Object>): (r: Result<ValidationResponse, ValidationError>)
    ensures r.Success? <==> status in {StatusOK, StatusNoContent, StatusNotFound}
    ensures r.Success? ==> (r.value.citizenExists <==> status == StatusNoContent)
    ensures status == StatusOK ==> r.value.message == MemberOr(parsed, "message", EligibleMessage)
    ensures status == StatusNoContent ==> r.value.message == AffiliatedMessage
    ensures status == StatusBadRequest ==>
              r == Failure(BadRequest(if body == "" then InvalidIdMessage else MemberOr(parsed, "error", InvalidIdMessage)))
    ensures status == StatusNotFound ==>
              r.value.message == (if body == "" then NotFoundMessage
                                  else if parsed.None? then TrimSpace(body)
                                  else MemberOr(parsed, "message", NotFoundMessage))
    ensures status !in {StatusOK, StatusNoContent, StatusBadRequest, StatusNotFound} ==>
              r == Failure(UnexpectedStatus(status))
  {
    if status == StatusOK then
      Success(ValidationResponse(false, MemberOr(parsed, "message", EligibleMessage)))
    else if status == StatusNoContent then
      Success(ValidationResponse(true, AffiliatedMessage))
    else if status == StatusBadRequest then
      var message := if |body| > 0 then MemberOr(parsed, "error", InvalidIdMessage) else InvalidIdMessage;
      Failure(BadRequest(message))
    else if status == StatusNotFound then
      var message :=
        if |body| > 0 then (if parsed.Some? then MemberOr(parsed, "message", NotFoundMessage) else TrimSpace(body))
        else NotFoundMessage;
      Success(ValidationResponse(false, message))
    else
      Failure(UnexpectedStatus(status))
  }

  /** Status 204 means "already affiliated", whatever the body says. */
  lemma NoContentIgnoresBody(body: string, parsed: Option<Object>, body': string, parsed': Option<Object>)
    ensures Classify(StatusNoContent, body, parsed) == Classify(StatusNoContent, body', parsed')
    ensures Classify(StatusNoContent, body, parsed) == Success(ValidationResponse(true, AffiliatedMessage))
  {
  }

  /** Only 204 blocks a registration: every positive answer but 204 says the
      citizen is not affiliated yet. */
  lemma OnlyNoContentMeansAffiliated(status: int, body: string, parsed: Option<Object>)
    ensures var r := Classify(status, body, parsed);
            r.Success? && r.value.citizenExists <==> status == StatusNoContent
  {
  }

  /** The not-found message is the default, the body's string `message`, or the
      body's text without its surrounding white space; in the last case it neither
      starts nor ends with white space. */
  lemma NotFoundMessageSources(body: string, parsed: Option<Object>)
    ensures var m := Classify(StatusNotFound, body, parsed).value.message;
            && (m == NotFoundMessage || StringMember(parsed, "message") == Some(m) || m == TrimSpace(body))
            && (parsed.None? && m != NotFoundMessage && m != [] ==> !IsSpace(m[0]) && !IsSpace(m[|m| - 1]))
  {
  }

  /** A parsed 200 body without a string `message` gives the default message, as a
      body that does not parse does. */
  lemma EligibleDefault(body: string, parsed: Option<Object>)
    requires StringMember(parsed, "message").None?
    ensures Classify(StatusOK, body, parsed) == Classify(StatusOK, body, None)
    ensures Classify(StatusOK, body, parsed) == Success(ValidationResponse(false, EligibleMessage))
  {
  }

  /** The answer to a whole affiliation call. */
  function Answer(reply: AffiliationReply): (r: Result<ValidationResponse, ValidationError>)
    ensures reply.CallFailed? ==> r == Failure(AffiliationCallFailed(reply.cause))
    ensures reply.ReadFailed? ==> r == Failure(BodyReadFailed(reply.cause))
    ensures reply.Answered? ==> r == Classify(reply.status, reply.body, reply.parsed)
  {
    match reply
    case CallFailed(cause) => Failure(AffiliationCallFailed(cause))
    case ReadFailed(cause) => Failure(BodyReadFailed(cause))
    case Answered(status, body, parsed) => Classify(status, body, parsed)
  }

  // ---------------------------------------------------------------------------
  // The validator

  /** The check request the validator sends: its URL, the `citizen_id` member of its
      body, and its Authorization header. */
  datatype CheckRequest = CheckRequest(url: string, citizenId: string, authorization: string)

  class CitizenValidator {
    const baseURL: string
    var cachedToken: string
    var tokenExpiresAt: int

    function Cache(): TokenCache
      reads this
    {
      TokenCache(cachedToken, tokenExpiresAt)
    }

    /** A new validator has no token. */
    constructor(baseURL: string)
      ensures this.baseURL == baseURL && cachedToken == ""
      ensures forall now :: !Fresh(Cache(), now)
    {
      this.baseURL := baseURL;
      cachedToken := "";
      tokenExpiresAt := 0;
    }

    /** Returns the cached token while it is fresh and otherwise logs in, keeping the
        new token for fourteen minutes from `later`. */
    method GetAuthToken(now: int, later: int, login: LoginReply) returns (r: Result<string, AuthError>, loggedIn: bool)
      modifies this
      ensures var o := Refresh(old(Cache()), now, later, login);
              Cache() == o.cache && r == o.result && loggedIn == o.loggedIn
    {
      if cachedToken != "" && now < tokenExpiresAt {
        return Success(cachedToken), false;
      }
      loggedIn := true;
      match login {
        case LoginUnreachable(cause) =>
          return Failure(LoginRequestFailed(cause)), loggedIn;
        case LoginAnswered(status, body) =>
          if status != StatusOK {
            return Failure(LoginRejected(status)), loggedIn;
          }
          match body {
            case Undecodable =>
              return Failure(LoginUndecodable), loggedIn;
            case Access(token) =>
              cachedToken := token;
              tokenExpiresAt := later + TokenLifetime;
              r := Success(token);
          }
      }
    }

    /** Gets a token, then asks the affiliation service about `citizenId`. Without
        a token no check request is sent; otherwise the request carries the number
        in decimal and the token as a bearer credential, and the answer is
        classified by status. */
    method ValidateCitizen(citizenId: int, now: int, later: int, login: LoginReply, reply: AffiliationReply)
      returns (r: Result<ValidationResponse, ValidationError>, sent: Option<CheckRequest>)
      modifies this
      ensures var o := Refresh(old(Cache()), now, later, login);
              && Cache() == o.cache
              && (o.result.Failure? ==> r == Failure(AuthFailed(o.result.error)) && sent == None)
              && (o.result.Success? ==>
                    && sent == Some(CheckRequest(baseURL + CheckPath, FormatInt(citizenId), "Bearer " + o.result.value))
                    && r == Answer(reply))
    {
      var token, _ := GetAuthToken(now, later, login);
      if token.Failure? {
        return Failure(AuthFailed(token.error)), None;
      }
      sent := Some(CheckRequest(baseURL + CheckPath, FormatInt(citizenId), "Bearer " + token.value));
      r := Answer(reply);
    }
  }

  /** The citizen number in a check request reads back as the number itself. */
  lemma CheckRequestCarriesId(citizenId: nat)
    ensures var t := FormatInt(citizenId);
            (forall i :: 0 <= i < |t| ==> '0' <= t[i] <= '9') && Decimal.Value(t) == citizenId
  {
    ValueOfDigits(citizenId);
  }
}
