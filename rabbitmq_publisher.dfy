/** The resilient RabbitMQ publisher of the documents-management service.

    `PublishToExchange` makes at most three attempts. Each attempt reuses the cached
    channel or opens a new one, declares the topology (the queue named by the routing
    key on the default exchange, or a durable topic exchange), derives the
    deduplication headers from the payload, and sends. A failure after the channel is
    obtained closes that channel and forgets it.

    The broker and the clock are oracles: `Env.answers(k)` is what the broker answers
    to the requests of attempt k, `Env.clock(k)` the Unix time read during attempt k.
    What the publisher does to the outside world is returned as a trace of events. */
module Messaging {
  import opened Wrappers
  import opened Json

  newtype byte = x: int | 0 <= x < 256

  const MaxRetries: nat := 3
  const RetryDelaySeconds: nat := 1
  /** amqp091.Persistent: the delivery mode that survives a broker restart. */
  const Persistent: nat := 2
  const JsonContentType: string := "application/json"
  const MessageIdHeader: string := "x-message-id"
  const TimestampHeader: string := "x-timestamp"
  const MessageIdField: string := "messageId"

  /** A channel, named by the position at which its connection issued it. */
  datatype Channel = Channel(id: nat)

  /** The broker's answer to one request. */
  datatype Reply = Ack | Nack(cause: string)

  /** The broker's answers to the three kinds of request one attempt can make:
      opening a channel, declaring the topology, and sending. */
  datatype Answers = Answers(create: Reply, declare: Reply, send: Reply)

  /** Everything outside the publisher, per attempt number. */
  datatype Env = Env(answers: nat -> Answers, clock: nat -> int)

  /** One call: the target, the payload, and what JSON decoding makes of the payload. */
  datatype Request = Request(exchange: string, routingKey: string, body: seq<byte>, decoded: Option<Object>)

  datatype HeaderValue = HString(s: string) | HInt(i: int)

  /** amqp091.Publishing, restricted to the properties the publisher sets. */
  datatype Publishing = Publishing(
    deliveryMode: nat,
    contentType: string,
    body: seq<byte>,
    headers: map<string, HeaderValue>,
    messageId: string)

  /** The arguments of `ch.ExchangeDeclare` (the argument table is always nil). */
  datatype ExchangeDeclaration = ExchangeDeclaration(
    name: string, kind: string, durable: bool, autoDelete: bool, internal: bool, noWait: bool)

  /** The arguments of `ch.PublishWithContext`. */
  datatype Frame = Frame(exchange: string, routingKey: string, mandatory: bool, immediate: bool, msg: Publishing)

  /** What the publisher does to the outside world, with the broker's answer. */
  datatype Event =
    | Sleep(seconds: nat)
    | OpenChannel(reply: Reply)
    | DeclareQueue(ch: Channel, queue: string, reply: Reply)
    | DeclareExchange(ch: Channel, decl: ExchangeDeclaration, reply: Reply)
    | Send(ch: Channel, frame: Frame, reply: Reply)
    | CloseChannel(ch: Channel)

  /** Why one attempt failed; the wrapping each error receives in the source. */
  datatype AttemptError =
    | ChannelUnavailable(cause: string)     // "publisher channel unavailable: %w"
    | QueueDeclareFailed(cause: string)     // DeclareQueue's error, passed on as it is
    | ExchangeDeclareFailed(cause: string)  // "failed to declare exchange: %w"
    | SendFailed(cause: string)             // "failed to publish message: %w"

  /** "publish failed after retries: %w", wrapping the last attempt's error. */
  datatype PublishError = Exhausted(last: AttemptError)

  /** The state one call reads and changes: the publisher's cached channel and the
      connection's bookkeeping (how many channels it issued, which are closed). */
  datatype World = World(cached: Option<Channel>, issued: nat, closed: set<nat>)

  /** `ch != nil && !ch.IsClosed()`: the cached channel can be reused. */
  predicate Usable(w: World)
  {
    w.cached.Some? && w.cached.value.id !in w.closed
  }

  /** Every channel mentioned was issued by the connection. */
  predicate WorldValid(w: World)
  {
    && (w.cached.Some? ==> w.cached.value.id < w.issued)
    && (forall id :: id in w.closed ==> id < w.issued)
  }

  /** The exchange every non-empty exchange name is declared as. */
  function TopicExchange(name: string): (d: ExchangeDeclaration)
  {
    ExchangeDeclaration(name, "topic", true, false, false, false)
  }

  /** The message id: the payload's string `messageId` member, or "" without one. */
  function MessageIdOf(decoded: Option<Object>): (id: string)
    ensures StringMember(decoded, MessageIdField).Some? ==> id == StringMember(decoded, MessageIdField).value
    ensures StringMember(decoded, MessageIdField).None? ==> id == ""
  {
    StringMember(decoded, MessageIdField).GetOr("")
  }

  /** The deduplication and ordering headers. */
  function Headers(messageId: string, now: int): map<string, HeaderValue>
  {
    var base := if messageId != "" then map[MessageIdHeader := HString(messageId)] else map[];
    base[TimestampHeader := HInt(now)]
  }

  /** The message sent for `req` at Unix time `now`. */
  function Envelope(req: Request, now: int): Publishing
  {
    var id := MessageIdOf(req.decoded);
    Publishing(Persistent, JsonContentType, req.body, Headers(id, now), id)
  }

  /** The message is persistent JSON carrying the payload unchanged. A string
      `messageId` in the decoded payload becomes the message id, and also the
      `x-message-id` header when it is not empty; without one the id is empty and
      there is no such header. `x-timestamp` always carries the time. */
  lemma EnvelopeFields(req: Request, now: int)
    ensures var m := Envelope(req, now);
            && m.deliveryMode == Persistent && m.contentType == JsonContentType && m.body == req.body
            && m.headers.Keys <= {MessageIdHeader, TimestampHeader}
            && TimestampHeader in m.headers && m.headers[TimestampHeader] == HInt(now)
            && (req.decoded.Some? && MessageIdField in req.decoded.value && req.decoded.value[MessageIdField].String? ==>
                  var id := req.decoded.value[MessageIdField].s;
                  && m.messageId == id
                  && (MessageIdHeader in m.headers <==> id != "")
                  && (id != "" ==> m.headers[MessageIdHeader] == HString(id)))
            && (!(req.decoded.Some? && MessageIdField in req.decoded.value && req.decoded.value[MessageIdField].String?) ==>
                  m.messageId == "" && MessageIdHeader !in m.headers)
  {
  }

  /** The topology request of an attempt on channel `ch`. */
  function Declaration(req: Request, ch: Channel, reply: Reply): Event
  {
    if req.exchange == "" then DeclareQueue(ch, req.routingKey, reply)
    else DeclareExchange(ch, TopicExchange(req.exchange), reply)
  }

  /** Close `ch` and forget the cached channel. */
  function Discard(w: World, ch: Channel): World
  {
    w.(cached := None, closed := w.closed + {ch.id})
  }

  /** The outcome of one attempt: the new state, the events in order, and the error
      (None when the message was sent). */
  datatype AttemptOutcome = AttemptOutcome(world: World, events: seq<Event>, failure: Option<AttemptError>)

  /** Declare, derive the envelope and send on channel `ch`; `opening` holds the
      events that produced `ch`. */
  function UseChannel(req: Request, answers: Answers, now: int, w: World, ch: Channel, opening: seq<Event>): AttemptOutcome
  {
    var declared := opening + [Declaration(req, ch, answers.declare)];
    match answers.declare
    case Nack(c) =>
      AttemptOutcome(Discard(w, ch), declared + [CloseChannel(ch)],
                     Some(if req.exchange == "" then QueueDeclareFailed(c) else ExchangeDeclareFailed(c)))
    case Ack =>
      var sent := declared + [Send(ch, Frame(req.exchange, req.routingKey, false, false, Envelope(req, now)), answers.send)];
      match answers.send
      case Nack(c) => AttemptOutcome(Discard(w, ch), sent + [CloseChannel(ch)], Some(SendFailed(c)))
      case Ack => AttemptOutcome(w, sent, None)
  }

  /** One attempt of the retry loop. */
  function Attempt(req: Request, answers: Answers, now: int, w: World): AttemptOutcome
  {
    if Usable(w) then UseChannel(req, answers, now, w, w.cached.value, [])
    else
      match answers.create
      case Nack(c) => AttemptOutcome(w, [OpenChannel(answers.create)], Some(ChannelUnavailable(c)))
      case Ack =>
        var ch := Channel(w.issued);
        UseChannel(req, answers, now, w.(cached := Some(ch), issued := w.issued + 1), ch, [OpenChannel(Ack)])
  }

  /** The outcome of a whole call. */
  datatype RunOutcome = RunOutcome(world: World, events: seq<Event>, attempts: nat, result: Option<PublishError>)

  /** The pause before attempt k: one second before every attempt but the first. */
  function Pause(k: nat): (p: seq<Event>)
    ensures |p| == (if k > 0 then 1 else 0)
    ensures forall i :: 0 <= i < |p| ==> p[i] == Sleep(RetryDelaySeconds)
  {
    if k > 0 then [Sleep(RetryDelaySeconds)] else []
  }

  /** Attempts k, k+1, ... up to MaxRetries, with `last` the error of attempt k-1. */
  function Retry(req: Request, env: Env, k: nat, w: World, last: Option<AttemptError>): RunOutcome
    requires (k == 0) == last.None?
    decreases MaxRetries - k
  {
    if k >= MaxRetries then RunOutcome(w, [], 0, Some(Exhausted(last.value)))
    else
      var a := Attempt(req, env.answers(k), env.clock(k), w);
      if a.failure.None? then RunOutcome(a.world, Pause(k) + a.events, 1, None)
      else
        var rest := Retry(req, env, k + 1, a.world, a.failure);
        RunOutcome(rest.world, Pause(k) + a.events + rest.events, rest.attempts + 1, rest.result)
  }

  /** Attempt k followed by the rest of the call, as `Retry` puts them together. */
  function Combine(k: nat, a: AttemptOutcome, rest: RunOutcome): RunOutcome
  {
    if a.failure.None? then RunOutcome(a.world, Pause(k) + a.events, 1, None)
    else RunOutcome(rest.world, Pause(k) + a.events + rest.events, rest.attempts + 1, rest.result)
  }

  /** `Retry` from attempt k on is that attempt combined with the rest. */
  lemma RetryStep(req: Request, env: Env, k: nat, w: World, last: Option<AttemptError>)
    requires k < MaxRetries && (k == 0) == last.None?
    ensures var a := Attempt(req, env.answers(k), env.clock(k), w);
            var rest := if a.failure.Some? then Retry(req, env, k + 1, a.world, a.failure)
                        else RunOutcome(a.world, [], 0, None);
            Retry(req, env, k, w, last) == Combine(k, a, rest)
  {
  }

  /** `whole` is what is left of a call once the events `done` happened: the events
      still to come are those of `rest`, which ends the way `whole` does. */
  predicate Resumes(whole: RunOutcome, done: seq<Event>, rest: RunOutcome)
  {
    whole.events == done + rest.events && whole.result == rest.result && whole.world == rest.world
  }

  /** If `whole` is what remains of a call when attempt k starts, then after that
      attempt it is what the attempt did followed by the rest of the call. */
  lemma ResumeAfter(whole: RunOutcome, before: seq<Event>, k: nat, out: AttemptOutcome, rest: RunOutcome)
    requires Resumes(whole, before, Combine(k, out, rest))
    ensures out.failure.None? ==>
              whole.events == before + Pause(k) + out.events && whole.result == None && whole.world == out.world
    ensures out.failure.Some? ==> Resumes(whole, before + Pause(k) + out.events, rest)
  {
    if out.failure.Some? {
      assert before + (Pause(k) + out.events + rest.events) == before + Pause(k) + out.events + rest.events;
    } else {
      assert before + (Pause(k) + out.events) == before + Pause(k) + out.events;
    }
  }

  // ---------------------------------------------------------------------------
  // The connection and the publisher

  /** The connection manager (RabbitMQClient) as far as channels go: the channels it
      issued are numbered 0, 1, ...; `closed` holds those that have been closed. */
  class Connection {
    var issued: nat
    var closed: set<nat>

    ghost predicate Valid()
      reads this
    {
      forall id :: id in closed ==> id < issued
    }

    constructor ()
      ensures Valid() && issued == 0 && closed == {}
    {
      issued := 0;
      closed := {};
    }

    /** `ch.IsClosed()`. */
    predicate IsClosed(ch: Channel)
      reads this
    {
      ch.id in closed
    }

    /** `client.CreateChannel()`, answered by the broker with `reply`. */
    method CreateChannel(reply: Reply) returns (r: Result<Channel, string>)
      requires Valid()
      modifies this
      ensures Valid() && closed == old(closed)
      ensures reply.Ack? ==> r == Success(Channel(old(issued))) && issued == old(issued) + 1
      ensures reply.Nack? ==> r == Failure(reply.cause) && issued == old(issued)
    {
      if reply.Ack? {
        r := Success(Channel(issued));
        issued := issued + 1;
      } else {
        r := Failure(reply.cause);
      }
    }

    /** The broker or the network closes channel `ch` on its own, between calls. */
    method LoseChannel(ch: Channel)
      requires ch.id < issued
      requires Valid()
      modifies this
      ensures Valid() && issued == old(issued) && closed == old(closed) + {ch.id}
    {
      closed := closed + {ch.id};
    }

    /** `ch.Close()`: the channel is closed whatever the broker answers. */
    method CloseChannel(ch: Channel)
      requires ch.id < issued
      requires Valid()
      modifies this
      ensures Valid() && issued == old(issued) && closed == old(closed) + {ch.id}
    {
      closed := closed + {ch.id};
    }
  }

  class Publisher {
    const client: Connection
    var channel: Option<Channel>

    ghost predicate Valid()
      reads this, client
    {
      WorldValid(State())
    }

    function State(): (w: World)
      reads this, client
    {
      World(channel, client.issued, client.closed)
    }

    /** NewRabbitMQPublisher: no channel is issued until the first publish. */
    constructor (client: Connection)
      requires client.Valid()
      ensures this.client == client && channel == None && Valid()
    {
      this.client := client;
      channel := None;
    }

    /** One pass of the loop body of PublishToExchange: obtain a channel, declare the
        topology, derive the envelope, send. */
    method TryOnce(req: Request, answers: Answers, now: int) returns (failure: Option<AttemptError>, events: seq<Event>)
      requires Valid()
      modifies this, client
      ensures Valid()
      ensures var a := Attempt(req, answers, now, old(State()));
              State() == a.world && events == a.events && failure == a.failure
    {
      var ch: Channel;
      events := [];
      if channel.None? || client.IsClosed(channel.value) {
        // No usable channel is cached: ask the connection for a new one.
        var created := client.CreateChannel(answers.create);
        events := [OpenChannel(answers.create)];
        if created.Failure? {
          return Some(ChannelUnavailable(created.error)), events;
        }
        channel := Some(created.value);
        ch := created.value;
      } else {
        ch := channel.value;
      }

      if req.exchange == "" {
        events := events + [DeclareQueue(ch, req.routingKey, answers.declare)];
        if answers.declare.Nack? {
          client.CloseChannel(ch);
          channel := None;
          return Some(QueueDeclareFailed(answers.declare.cause)), events + [CloseChannel(ch)];
        }
      } else {
        events := events + [DeclareExchange(ch, TopicExchange(req.exchange), answers.declare)];
        if answers.declare.Nack? {
          client.CloseChannel(ch);
          channel := None;
          return Some(ExchangeDeclareFailed(answers.declare.cause)), events + [CloseChannel(ch)];
        }
      }

      var msg := Envelope(req, now);
      events := events + [Send(ch, Frame(req.exchange, req.routingKey, false, false, msg), answers.send)];
      if answers.send.Nack? {
        client.CloseChannel(ch);
        channel := None;
        return Some(SendFailed(answers.send.cause)), events + [CloseChannel(ch)];
      }
      failure := None;
    }

    /** One turn of the retry loop of PublishToExchange: the pause before a retry,
        then one attempt. */
    method Turn(req: Request, env: Env, k: nat, ghost last: Option<AttemptError>, ghost whole: RunOutcome, trace: seq<Event>)
      returns (failure: Option<AttemptError>, trace': seq<Event>)
      requires Valid() && k < MaxRetries && (k == 0) == last.None?
      requires Resumes(whole, trace, Retry(req, env, k, State(), last))
      modifies this, client
      ensures Valid()
      ensures failure.None? ==> whole.events == trace' && whole.result == None && whole.world == State()
      ensures failure.Some? ==> Resumes(whole, trace', Retry(req, env, k + 1, State(), failure))
    {
      ghost var w := State();
      trace' := trace;
      if k > 0 {
        trace' := trace' + [Sleep(RetryDelaySeconds)];
      }
      assert trace' == trace + Pause(k);
      var events;
      failure, events := TryOnce(req, env.answers(k), env.clock(k));
      trace' := trace' + events;
      ghost var out := Attempt(req, env.answers(k), env.clock(k), w);
      ghost var rest := if out.failure.Some? then Retry(req, env, k + 1, out.world, out.failure)
                        else RunOutcome(out.world, [], 0, None);
      RetryStep(req, env, k, w, last);
      ResumeAfter(whole, trace, k, out, rest);
    }

    /** PublishToExchange: the retry loop. */
    method PublishToExchange(exchange: string, routingKey: string, message: seq<byte>, decoded: Option<Object>, env: Env)
      returns (err: Option<PublishError>, trace: seq<Event>)
      requires Valid()
      modifies this, client
      ensures Valid()
      ensures var run := Retry(Request(exchange, routingKey, message, decoded), env, 0, old(State()), None);
              err == run.result && trace == run.events && State() == run.world
    {
      var req := Request(exchange, routingKey, message, decoded);
      ghost var whole := Retry(req, env, 0, State(), None);
      var lastErr: Option<AttemptError> := None;
      trace := [];
      for attempt := 0 to MaxRetries
        invariant Valid()
        invariant (attempt == 0) == lastErr.None?
        invariant Resumes(whole, trace, Retry(req, env, attempt, State(), lastErr))
      {
        var failure;
        failure, trace := Turn(req, env, attempt, lastErr, whole, trace);
        if failure.None? {
          return None, trace;
        }
        lastErr := failure;
      }
      err := Some(Exhausted(lastErr.value));
    }

    /** Publish: publishing straight to the queue `queue` through the default exchange. */
    method Publish(queue: string, message: seq<byte>, decoded: Option<Object>, env: Env)
      returns (err: Option<PublishError>, trace: seq<Event>)
      requires Valid()
      modifies this, client
      ensures Valid()
      ensures var run := Retry(Request("", queue, message, decoded), env, 0, old(State()), None);
              err == run.result && trace == run.events && State() == run.world
    {
      err, trace := PublishToExchange("", queue, message, decoded, env);
    }

    /** Close: closes the cached channel, if any, and reports the broker's error.
        The channel stays cached, closed, so the next publish opens a new one. */
    method Close(reply: Reply) returns (err: Option<string>)
      requires Valid()
      modifies client
      ensures Valid() && channel == old(channel) && client.issued == old(client.issued)
      ensures old(channel).None? ==> err == None && client.closed == old(client.closed)
      ensures old(channel).Some? ==>
                && client.closed == old(client.closed) + {old(channel).value.id}
                && err == (if reply.Nack? then Some(reply.cause) else None)
      ensures !Usable(State())
    {
      err := None;
      if channel.Some? {
        client.CloseChannel(channel.value);
        if reply.Nack? {
          err := Some(reply.cause);
        }
      }
    }
  }
}
