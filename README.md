# Publisher, citizen validator and registration checks, in Dafny

This project models three pieces of a document-management platform built from
microservices, and proves properties of the models.

- **The RabbitMQ publisher** of the documents-management service. `PublishToExchange`
  makes up to three attempts and pauses one second before each retry. An attempt
  works as follows:
  - it reuses the cached channel while that channel is open, and otherwise asks the
    connection for a new one;
  - it declares the topology: the queue named by the routing key for the default
    exchange, or a durable topic exchange;
  - it derives the deduplication headers from the JSON payload and sends the message;
  - if a declaration or the send fails, it closes the channel and forgets it.

  `Publish` publishes to a queue through the default exchange. `Close` closes the
  cached channel. The model has two parts:
  - `Publisher` and `Connection` are classes whose methods update the cached channel
    and the connection's channel bookkeeping.
  - The loop in `Publisher.PublishToExchange` is proved to follow the recursive
    function `Messaging.Retry`. The module `MessagingProperties` proves what the
    source promises about `Retry`.

  The broker's answers and the clock are given per attempt as an oracle (`Env`).
  The events the publisher causes come back as a trace: pauses, channel requests,
  declarations, sends and closes.
- **The citizen validator** of the auth service. It logs in to the affiliation
  service, keeps the access token for fourteen minutes, and asks whether a citizen
  is already affiliated. It turns the answer into a result or an error according
  to the HTTP status code.
  - `CitizenValidator.GetAuthToken` updates the two cache fields and is tied to the
    function `Refresh`.
  - `Classify` maps a status and a body to an answer.
  - `CitizenValidator.ValidateCitizen` puts the two together.
  - The HTTP calls are oracles: the methods receive the reply each call would get
    and report which requests they sent.
- **The registration handler** of the auth service. It rejects checks in this
  order:
  1. a body that does not decode;
  2. a missing required field;
  3. a citizen number that does not have ten decimal digits.

  Only after all three pass does it call the registration service, and it answers
  201 with the user the service returns. `Register` is a pure function from the
  decoded request and the service's reply to the response. It also returns the
  service call that was made, if any.

Support modules:
- `Wrappers`: `Option` and `Result`.
- `Json`: a JSON document already decoded to an object, and its string members.
- `Decimal`: the decimal rendering that `%d` produces, its inverse, and the
  ten-digit range.
- `Text`: Go's `strings.TrimSpace` with the white space of `unicode.IsSpace`.

Units: times passed to the publisher are Unix seconds, the unit of the
`x-timestamp` header. Times passed to the validator are nanoseconds, the unit of
Go's `time.Duration`.

## Model

| member | source | states |
|---|---|---|
| Messaging.Publisher.constructor | documents-management-microservice/internal/infrastructure/messaging/rabbitmq_publisher.go:20-28 | a new publisher has no cached channel and keeps the connection it was given |
| Messaging.Publisher.Publish | documents-management-microservice/internal/infrastructure/messaging/rabbitmq_publisher.go:31-34 | publishing to a queue has exactly the outcome, trace and new state of publishing to the exchange "" with that queue as routing key |
| Messaging.Publisher.PublishToExchange | documents-management-microservice/internal/infrastructure/messaging/rabbitmq_publisher.go:38-136 | the retry loop returns the error, emits the trace and leaves the channel state that `Retry` gives for attempt 0 from the state before the call |
| Messaging.Publisher.Turn | documents-management-microservice/internal/infrastructure/messaging/rabbitmq_publisher.go:42-57 | one loop turn, the pause before a retry and then one attempt, leaves the rest of the call as `Retry` from the next attempt on, or ends it on success |
| Messaging.Publisher.TryOnce | documents-management-microservice/internal/infrastructure/messaging/rabbitmq_publisher.go:47-133 | one pass of the loop body yields the error, events and new channel state of `Attempt` |
| Messaging.Publisher.Close | documents-management-microservice/internal/infrastructure/messaging/rabbitmq_publisher.go:139-148 | closes the cached channel if there is one, returns the broker's error if any, keeps the field as it was, and leaves no usable channel |
| Messaging.Connection.CreateChannel | documents-management-microservice/internal/infrastructure/messaging/rabbitmq_publisher.go:50-56 | an accepted request issues the next channel number; a refused one issues nothing and returns the broker's error |
| Messaging.Connection.CloseChannel | documents-management-microservice/internal/infrastructure/messaging/rabbitmq_publisher.go:64-65 | closing adds the channel to the closed ones and changes nothing else |
| Messaging.Connection.LoseChannel | documents-management-microservice/internal/infrastructure/messaging/rabbitmq_publisher.go:48 | a channel closed by the broker counts as closed, so `IsClosed` makes the next attempt replace it |
| Messaging.Retry | documents-management-microservice/internal/infrastructure/messaging/rabbitmq_publisher.go:40-135 | the whole retry loop as a recursive definition: from attempt k, the pause before a retry, one attempt, and on failure the remaining attempts up to three; it ends with no error after the first accepted send, or with the last attempt's error wrapped once three attempts have failed; the loop method is proved equal to it and the properties below are proved about it |
| Messaging.Attempt | documents-management-microservice/internal/infrastructure/messaging/rabbitmq_publisher.go:47-133 | one pass of the loop body: reuse the cached channel when it is usable; otherwise request a channel, where a refusal ends the attempt with the state unchanged and an accepted channel is cached; then declare and send on that channel |
| Messaging.UseChannel | documents-management-microservice/internal/infrastructure/messaging/rabbitmq_publisher.go:59-126 | declare the queue or the exchange on the channel, then send the envelope; a refused declaration or send closes the channel, forgets it, and gives the matching error |
| Messaging.Usable | documents-management-microservice/internal/infrastructure/messaging/rabbitmq_publisher.go:47-48 | the test `ch == nil \|\| ch.IsClosed()` negated: a channel is cached and it is not closed |
| Messaging.MessageIdOf | documents-management-microservice/internal/infrastructure/messaging/rabbitmq_publisher.go:87-94 | the message id is the payload's string `messageId` member, or "" when the payload does not decode or has no such string |
| Messaging.Headers | documents-management-microservice/internal/infrastructure/messaging/rabbitmq_publisher.go:96-103 | `x-message-id` only for a non-empty id, and `x-timestamp` always |
| Messaging.Envelope | documents-management-microservice/internal/infrastructure/messaging/rabbitmq_publisher.go:105-118 | the Publishing the attempt sends: persistent, JSON, the payload unchanged, the headers and the message id; its properties are in `EnvelopeFields` |
| Messaging.EnvelopeFields | documents-management-microservice/internal/infrastructure/messaging/rabbitmq_publisher.go:87-118 | the message is persistent JSON carrying the payload unchanged; with a string `messageId` in the decoded payload, MessageId is that string and the `x-message-id` header holds it exactly when it is non-empty; otherwise MessageId is empty and there is no such header; `x-timestamp` is always the current time |
| MessagingProperties.OpenOnlyWhenUnusable | documents-management-microservice/internal/infrastructure/messaging/rabbitmq_publisher.go:47-57 | an attempt asks for a channel exactly when the cached one is missing or closed, and only as its first event; a refused request ends the attempt with no declaration or send and the state unchanged |
| MessagingProperties.FailureDiscardsChannel | documents-management-microservice/internal/infrastructure/messaging/rabbitmq_publisher.go:61-126 | after a refused declaration or send, the channel used is closed as the last event and no channel is cached; after any failure the next attempt opens a channel first |
| MessagingProperties.UseChannelStaysOn | documents-management-microservice/internal/infrastructure/messaging/rabbitmq_publisher.go:61-112 | the declaration and the send of one attempt go to the one channel the attempt holds |
| MessagingProperties.DiscardedChannelNotReused | documents-management-microservice/internal/infrastructure/messaging/rabbitmq_publisher.go:61-126 | after a refused declaration or send, the next attempt sends only on a newly issued channel, never on the one that was closed |
| MessagingProperties.AttemptFacts | documents-management-microservice/internal/infrastructure/messaging/rabbitmq_publisher.go:42-133 | an attempt never pauses, sends once exactly when it has a channel and its declaration is accepted, ends a failure with the refusal, ends a success with the accepted send on the channel that stays cached, and its trace's end shows its error |
| MessagingProperties.AttemptErrors | documents-management-microservice/internal/infrastructure/messaging/rabbitmq_publisher.go:50-126 | the error of an attempt for each refusal: channel unavailable, queue or exchange declaration failed as the exchange name says, send failed; no error exactly when the send is accepted |
| MessagingProperties.AttemptDeclaresFirst | documents-management-microservice/internal/infrastructure/messaging/rabbitmq_publisher.go:47-112 | an attempt that holds a channel, cached or newly created, declares its queue or exchange on that channel as its first request after the channel request, and it sends only right after that declaration is accepted |
| MessagingProperties.RetryDeclaresFirst | documents-management-microservice/internal/infrastructure/messaging/rabbitmq_publisher.go:42-135 | across every attempt of a call, each send comes right after the accepted declaration of its target on the same channel |
| MessagingProperties.TopologyPaths | documents-management-microservice/internal/infrastructure/messaging/rabbitmq_publisher.go:60-112 | with exchange "" a call only declares the queue named by the routing key; with a named exchange it only declares that exchange as durable, topic, not auto-deleted, not internal, waiting for the answer; and every send comes right after the accepted declaration of that queue or exchange on the same channel, so no send skips the declaration |
| MessagingProperties.SendsAreUniform | documents-management-microservice/internal/infrastructure/messaging/rabbitmq_publisher.go:87-119 | every send of a call goes to the requested exchange and routing key with mandatory and immediate off, as persistent JSON with the payload unchanged; its message id is the one derived from the payload, the `x-message-id` header holds it exactly when it is non-empty, `x-timestamp` is present, and the message is the envelope for the time in that header; every pause lasts one second |
| MessagingProperties.RetryShape | documents-management-microservice/internal/infrastructure/messaging/rabbitmq_publisher.go:40-135 | from attempt k on, the call is a well-formed run: bounded attempts, one pause per retry and each pause right after a failed attempt, at most one send per attempt, and the success or error shown by the end of its trace |
| MessagingProperties.AttemptsAndPauses | documents-management-microservice/internal/infrastructure/messaging/rabbitmq_publisher.go:40-45 | a call makes one to three attempts, pauses once before every attempt but the first and never at the start, sends at most once per attempt, and a failed call has made all three |
| MessagingProperties.SuccessKeepsChannel | documents-management-microservice/internal/infrastructure/messaging/rabbitmq_publisher.go:128-133 | a successful call ends with the accepted send, and its channel stays cached and open |
| MessagingProperties.ExhaustedWrapsLastError | documents-management-microservice/internal/infrastructure/messaging/rabbitmq_publisher.go:120-135 | a failed call made three attempts and wraps the error of the last one, the one the end of its trace shows |
| MessagingProperties.FailedCallForcesNewChannel | documents-management-microservice/internal/infrastructure/messaging/rabbitmq_publisher.go:47-66 | after a failed call no usable channel is cached, and the next call begins by asking for a new channel |
| MessagingProperties.HealthyBrokerSendsOnce | documents-management-microservice/internal/infrastructure/messaging/rabbitmq_publisher.go:42-133 | a broker that accepts everything gets the message once, in one attempt, with no pause, and the send right after the accepted declaration of its queue or exchange on that channel (with exchange "", routing key "orders" declares queue "orders") |
| MessagingProperties.RecoversOnThirdAttempt | documents-management-microservice/internal/infrastructure/messaging/rabbitmq_publisher.go:42-135 | two refused sends and then an accepted one: the call succeeds on the third attempt after three sends and two pauses |
| CitizenValidation.Fresh | auth-microservice/internal/infrastructure/external/citizen_validator.go:57 | the cache is used exactly when the token is non-empty and now is strictly before its expiry |
| CitizenValidation.Refresh | auth-microservice/internal/infrastructure/external/citizen_validator.go:55-107 | no login exactly when the cached token is non-empty and now is strictly before its expiry, and then that token is returned; a failed login leaves the cache as it was; a successful login caches the returned token until fourteen minutes after the later clock reading |
| CitizenValidation.CitizenValidator.GetAuthToken | auth-microservice/internal/infrastructure/external/citizen_validator.go:55-107 | returns the token or error, updates the cache fields, and reports whether it logged in, as `Refresh` says |
| CitizenValidation.CitizenValidator.constructor | auth-microservice/internal/infrastructure/external/citizen_validator.go:41-52 | a new validator has no token, so its first request logs in |
| CitizenValidation.LoginErrors | auth-microservice/internal/infrastructure/external/citizen_validator.go:79-98 | without a usable cached token, an unreachable login service, a status other than 200 or an undecodable body each give their error; a token comes back exactly for a decodable 200 |
| CitizenValidation.TokenReusedForFourteenMinutes | auth-microservice/internal/infrastructure/external/citizen_validator.go:57-102 | a non-empty token from a login is reused without logging in by every request before fourteen minutes have passed, and the first request after that logs in again |
| CitizenValidation.EmptyTokenNeverCached | auth-microservice/internal/infrastructure/external/citizen_validator.go:57-106 | an empty access token from a login is returned once, and the next request logs in again |
| CitizenValidation.Classify | auth-microservice/internal/infrastructure/external/citizen_validator.go:168-239 | 200, 204 and 404 give an answer and every other status an error; only 204 says the citizen exists; 200 takes the body's string `message` or the eligible default; 204 gives the fixed affiliated message; 400 is a bad-request error with the body's string `error` or the invalid-format default; 404 gives the default for an empty body, the trimmed text for a body that does not parse, and otherwise the string `message` or the default; other statuses report the status |
| CitizenValidation.NoContentIgnoresBody | auth-microservice/internal/infrastructure/external/citizen_validator.go:192-197 | every 204 answer is the same "already affiliated" result, whatever the body |
| CitizenValidation.OnlyNoContentMeansAffiliated | auth-microservice/internal/infrastructure/external/citizen_validator.go:168-239 | a positive answer saying the citizen exists comes exactly from status 204 |
| CitizenValidation.NotFoundMessageSources | auth-microservice/internal/infrastructure/external/citizen_validator.go:214-232 | the 404 message is the default, the body's string `message`, or the body's text without surrounding white space, and text taken from a body that does not parse neither starts nor ends with white space |
| CitizenValidation.EligibleDefault | auth-microservice/internal/infrastructure/external/citizen_validator.go:169-190 | a 200 body without a string `message` gives the same default answer as a body that does not parse |
| CitizenValidation.Answer | auth-microservice/internal/infrastructure/external/citizen_validator.go:148-168 | a failed call and an unreadable body give their errors, and an answered call is classified by its status |
| CitizenValidation.CitizenValidator.ValidateCitizen | auth-microservice/internal/infrastructure/external/citizen_validator.go:110-239 | the cache changes as `Refresh` says; without a token the authentication error is returned and no check request is sent; with one, the request goes to the check path with the citizen number in decimal and a bearer token, and its reply is classified |
| CitizenValidation.CheckRequestCarriesId | auth-microservice/internal/infrastructure/external/citizen_validator.go:128-130 | the `citizen_id` text of a check request consists of decimal digits that read back as the citizen number |
| Registration.Register | auth-microservice/internal/adapters/http/handler/auth/register_handler.go:29-77 | an undecodable body is answered first, then a missing field, then a citizen number without ten digits, each with no service call; otherwise the service is called with the request's fields, and its error becomes a domain error response while its user becomes a 201 response |
| Registration.ToResponse | auth-microservice/internal/adapters/http/handler/auth/register_handler.go:64-73 | the response copies every field of the user unchanged |
| Registration.TenDigitRange | auth-microservice/internal/adapters/http/handler/auth/register_handler.go:46-53 | a request with every required field passes the length check exactly when its citizen number lies between 1000000000 and 9999999999, and otherwise gets 400 with code INVALID_ID_CITIZEN_LENGTH |
| Registration.CreatedExactly | auth-microservice/internal/adapters/http/handler/auth/register_handler.go:33-75 | the answer is 201 exactly when the body decodes, every field is present, the number has ten digits and the service registers the user, and its body is that user |
| Registration.ChecksComeFirst | auth-microservice/internal/adapters/http/handler/auth/register_handler.go:33-53 | a request stopped by a check is answered the same whatever the service would say |
| Decimal.FormatInt | auth-microservice/internal/adapters/http/handler/auth/register_handler.go:47 | `%d`: the digits of a non-negative number without leading zeros, and a minus sign before the digits of a negative one |
| Json.StringMember | auth-microservice/internal/infrastructure/external/citizen_validator.go:183 | the `.(string)` assertion on a decoded member: a value exactly when the document decoded and the member is present and a string, and then that string; also at rabbitmq_publisher.go line 91 and citizen_validator.go lines 205 and 221 |
| Decimal.ValueOfDigits | auth-microservice/internal/adapters/http/handler/auth/register_handler.go:47 | the `%d` digits of a natural number read back as that number |
| Decimal.TenDigits | auth-microservice/internal/adapters/http/handler/auth/register_handler.go:47-48 | a natural number renders to exactly ten digits exactly when it lies between 1000000000 and 9999999999 |
| Text.IsSpace | auth-microservice/internal/infrastructure/external/citizen_validator.go:226 | Go's `unicode.IsSpace`: tab, newline, vertical tab, form feed, carriage return, space, U+0085, U+00A0, U+1680, U+2000 to U+200A, U+2028, U+2029, U+202F, U+205F and U+3000 |
| Text.TrimSpace | auth-microservice/internal/infrastructure/external/citizen_validator.go:226 | the result is the slice of the input between its leading and trailing white space, neither end of it is white space, and it is empty exactly when the input is all white space |
| Text.TrimSpaceIdempotent | auth-microservice/internal/infrastructure/external/citizen_validator.go:226 | trimming twice gives the same text as trimming once |

## Left out

- The AMQP library is left out. Broker answers come from an oracle. A channel is only a number, and the connection only tracks which channels it issued and which are closed.
- The context passed to `PublishWithContext` and to the HTTP requests is left out, so cancellation and deadlines are not modelled. The retry pause is not cancellable in the source either.
- Concurrency is left out. The model assumes that one caller at a time uses the publisher and the validator. The source does no locking, so the model does not capture these races:
  - Two concurrent `PublishToExchange` calls can both find `p.channel` nil or closed and both create a channel (rabbitmq_publisher.go lines 47-56). One assignment overwrites the other, and the overwritten channel is never closed.
  - Two concurrent `getAuthToken` calls can both miss the cache, both log in, and race on `cachedToken` and `tokenExpiresAt` (citizen_validator.go lines 57 and 101-102).
- Real time is left out. `time.Now` readings are inputs: one per publish attempt, and two per login (the cache check and the moment the token is stored). `time.Sleep` is a `Sleep` event.
- JSON decoding is left out. Each payload or body comes with its decoded form, `Option<Object>`, and the model does not relate the decoded form to the bytes.
- The login body is read as its `access` field or as undecodable, because Go decodes a struct field whose name matches without regard to case.
- Response bodies are text (`seq<char>`), not bytes. `TrimSpace` works on characters, as it does for valid UTF-8.
- Errors are constructors, not strings: `fmt.Errorf` wrapping becomes nesting of datatype values.
- Some error paths of the validator cannot be reached or depend on the URL library, and are not modelled:
  - marshalling errors of the `map[string]string` request bodies;
  - request construction errors from a malformed base URL;
  - the 30-second client timeout, apart from its effect as a failed call.
- The hard-coded service credentials, the API key and the login request's URL and body are left out. The login is one oracle reply.
- `CitizenValidationResponse.CitizenData` and `StatusCode` are left out because the code never sets them.
- The errors package of the HTTP adapter is not part of this model. `ErrInvalidRequestBody`, `ErrRequiredField` and the mapping from domain errors to HTTP statuses are named response kinds.
- `IDCitizen` is an unbounded integer. A number that does not fit Go's `int` fails to decode, which the decode oracle covers.
- Logging (`log.Printf`, zap) and metrics are left out as observability only.
- The S3 configuration and the Django document services are not part of this model.
