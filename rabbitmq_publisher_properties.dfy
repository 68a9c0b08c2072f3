/** What the retry loop of the RabbitMQ publisher guarantees, stated over the
    specification `Retry` that `Publisher.PublishToExchange` is proved to follow. */
module MessagingProperties {
  import opened Wrappers
  import opened Json
  import opened Messaging

  /** The number of pauses in a trace. */
  function SleepCount(s: seq<Event>): nat
  {
    if s == [] then 0 else (if s[0].Sleep? then 1 else 0) + SleepCount(s[1..])
  }

  /** The number of messages handed to the broker in a trace. */
  function SendCount(s: seq<Event>): nat
  {
    if s == [] then 0 else (if s[0].Send? then 1 else 0) + SendCount(s[1..])
  }

  /** The events that end a failed attempt: a refused channel, or a channel closed
      after a refused declaration or send. */
  predicate EndsFailedAttempt(e: Event)
  {
    (e.OpenChannel? && e.reply.Nack?) || e.CloseChannel?
  }

  /** The error that the end of a trace shows: the broker's last refusal, wrapped the
      way the publisher wraps it. */
  function TraceError(s: seq<Event>): Option<AttemptError>
  {
    if s == [] then None
    else match s[|s| - 1]
      case OpenChannel(Nack(c)) => Some(ChannelUnavailable(c))
      case CloseChannel(_) =>
        if |s| < 2 then None
        else (match s[|s| - 2]
          case DeclareQueue(_, _, Nack(c)) => Some(QueueDeclareFailed(c))
          case DeclareExchange(_, _, Nack(c)) => Some(ExchangeDeclareFailed(c))
          case Send(_, _, Nack(c)) => Some(SendFailed(c))
          case _ => None)
      case _ => None
  }

  lemma {:induction false} SleepCountAppend(a: seq<Event>, b: seq<Event>)
    ensures SleepCount(a + b) == SleepCount(a) + SleepCount(b)
  {
    if a != [] {
      assert (a + b)[1..] == a[1..] + b;
      SleepCountAppend(a[1..], b);
    } else {
      assert a + b == b;
    }
  }

  lemma {:induction false} SendCountAppend(a: seq<Event>, b: seq<Event>)
    ensures SendCount(a + b) == SendCount(a) + SendCount(b)
  {
    if a != [] {
      assert (a + b)[1..] == a[1..] + b;
      SendCountAppend(a[1..], b);
    } else {
      assert a + b == b;
    }
  }

  lemma {:induction false} NoSleeps(s: seq<Event>)
    requires forall i :: 0 <= i < |s| ==> !s[i].Sleep?
    ensures SleepCount(s) == 0
  {
    if s != [] {
      NoSleeps(s[1..]);
    }
  }

  lemma {:induction false} NoSends(s: seq<Event>)
    requires forall i :: 0 <= i < |s| ==> !s[i].Send?
    ensures SendCount(s) == 0
  {
    if s != [] {
      NoSends(s[1..]);
    }
  }

  lemma {:induction false} OneSend(s: seq<Event>, k: nat)
    requires k < |s| && s[k].Send?
    requires forall i :: 0 <= i < |s| && i != k ==> !s[i].Send?
    ensures SendCount(s) == 1
  {
    if k == 0 {
      NoSends(s[1..]);
    } else {
      OneSend(s[1..], k - 1);
    }
  }

  lemma TraceErrorSuffix(p: seq<Event>, s: seq<Event>)
    requires |s| >= 2 || (|s| == 1 && !s[0].CloseChannel?)
    ensures TraceError(p + s) == TraceError(s)
  {
    var t := p + s;
    assert t[|t| - 1] == s[|s| - 1];
    if |s| >= 2 {
      assert t[|t| - 2] == s[|s| - 2];
    }
  }

  // ---------------------------------------------------------------------------
  // One attempt

  /** The channel an attempt works on: the cached one when it is usable, otherwise
      the one the connection opens next. */
  function ChannelOf(w: World): Channel
  {
    if Usable(w) then w.cached.value else Channel(w.issued)
  }

  /** A new channel is requested exactly when the cached one is missing or closed;
      a refused request ends the attempt before any declaration or send and leaves
      the cached channel as it was. */
  lemma OpenOnlyWhenUnusable(req: Request, answers: Answers, now: int, w: World)
    ensures var a := Attempt(req, answers, now, w);
            && a.events != []
            && (a.events[0].OpenChannel? <==> !Usable(w))
            && (forall i :: 0 < i < |a.events| ==> !a.events[i].OpenChannel?)
            && (!Usable(w) ==> a.events[0] == OpenChannel(answers.create))
            && (!Usable(w) && answers.create.Nack? ==>
                  a == AttemptOutcome(w, [OpenChannel(answers.create)], Some(ChannelUnavailable(answers.create.cause))))
  {
  }

  /** After a refused declaration or send, the channel that was used is closed and no
      channel is cached; after any failure the next attempt must open a new channel. */
  lemma FailureDiscardsChannel(req: Request, answers: Answers, now: int, w: World, next: Answers, later: int)
    ensures var a := Attempt(req, answers, now, w);
            var ch := ChannelOf(w);
            && (a.failure.Some? && !a.failure.value.ChannelUnavailable? ==>
                  && a.world.cached == None
                  && a.world.closed == w.closed + {ch.id}
                  && a.events[|a.events| - 1] == CloseChannel(ch))
            && (a.failure.Some? ==> !Usable(a.world))
            && (a.failure.Some? ==> Attempt(req, next, later, a.world).events[0] == OpenChannel(next.create))
  {
    var a := Attempt(req, answers, now, w);
    if a.failure.Some? {
      assert !Usable(a.world);
      OpenOnlyWhenUnusable(req, next, later, a.world);
    }
  }

  /** Every request an attempt makes after obtaining channel `ch` goes to `ch`. */
  lemma UseChannelStaysOn(req: Request, answers: Answers, now: int, w: World, ch: Channel, opening: seq<Event>)
    requires opening == [] || opening == [OpenChannel(Ack)]
    ensures var a := UseChannel(req, answers, now, w, ch, opening);
            forall i :: 0 <= i < |a.events| && (a.events[i].DeclareQueue? || a.events[i].DeclareExchange? || a.events[i].Send?) ==>
              a.events[i].ch == ch
  {
  }

  /** A channel closed after a refused declaration or send is never used again:
      the next attempt sends only on a channel issued after it. */
  lemma DiscardedChannelNotReused(req: Request, answers: Answers, now: int, w: World, next: Answers, later: int)
    requires WorldValid(w)
    ensures var a := Attempt(req, answers, now, w);
            var b := Attempt(req, next, later, a.world);
            a.failure.Some? && !a.failure.value.ChannelUnavailable? ==>
              && ChannelOf(w).id < a.world.issued
              && forall i :: 0 <= i < |b.events| && b.events[i].Send? ==> b.events[i].ch == Channel(a.world.issued)
  {
    var a := Attempt(req, answers, now, w);
    if a.failure.Some? && !a.failure.value.ChannelUnavailable? {
      FailureDiscardsChannel(req, answers, now, w, next, later);
      var ch := Channel(a.world.issued);
      UseChannelStaysOn(req, next, later, a.world.(cached := Some(ch), issued := a.world.issued + 1), ch, [OpenChannel(Ack)]);
    }
  }

  /** An attempt reaches the send when it has a channel and its declaration is
      accepted. */
  predicate ReachesSend(answers: Answers, w: World)
  {
    (Usable(w) || answers.create.Ack?) && answers.declare.Ack?
  }

  /** What every attempt's outcome looks like: the state stays well formed, there is
      no pause inside an attempt, at most one send, a failure ends with the refusal
      and leaves no usable channel, a success ends with the accepted send on the
      channel that stays cached, and the end of the trace shows the error. */
  predicate AttemptShape(a: AttemptOutcome)
  {
    && WorldValid(a.world)
    && a.events != []
    && (forall i :: 0 <= i < |a.events| ==> !a.events[i].Sleep?)
    && SleepCount(a.events) == 0
    && SendCount(a.events) <= 1
    && (a.failure.Some? ==> EndsFailedAttempt(a.events[|a.events| - 1]) && !Usable(a.world))
    && (a.failure.None? ==>
          var e := a.events[|a.events| - 1];
          e.Send? && e.reply == Ack && Usable(a.world) && a.world.cached == Some(e.ch))
    && (|a.events| >= 2 || (|a.events| == 1 && !a.events[0].CloseChannel?))
    && TraceError(a.events) == a.failure
  }

  /** The part of an attempt that follows obtaining channel `ch`. */
  lemma UseChannelFacts(req: Request, answers: Answers, now: int, w: World, ch: Channel, opening: seq<Event>)
    requires WorldValid(w) && w.cached == Some(ch) && ch.id !in w.closed
    requires opening == [] || opening == [OpenChannel(Ack)]
    ensures AttemptShape(UseChannel(req, answers, now, w, ch, opening))
    ensures SendCount(UseChannel(req, answers, now, w, ch, opening).events) == (if answers.declare.Ack? then 1 else 0)
  {
    if answers.declare.Nack? {
      DeclarationRefused(req, answers, now, w, ch, opening);
    } else {
      DeclarationAccepted(req, answers, now, w, ch, opening);
    }
  }

  lemma DeclarationRefused(req: Request, answers: Answers, now: int, w: World, ch: Channel, opening: seq<Event>)
    requires WorldValid(w) && w.cached == Some(ch) && ch.id !in w.closed
    requires opening == [] || opening == [OpenChannel(Ack)]
    requires answers.declare.Nack?
    ensures AttemptShape(UseChannel(req, answers, now, w, ch, opening))
    ensures SendCount(UseChannel(req, answers, now, w, ch, opening).events) == 0
  {
    var a := UseChannel(req, answers, now, w, ch, opening);
    assert a.events == opening + [Declaration(req, ch, answers.declare), CloseChannel(ch)];
    NoSleeps(a.events);
    NoSends(a.events);
  }

  lemma DeclarationAccepted(req: Request, answers: Answers, now: int, w: World, ch: Channel, opening: seq<Event>)
    requires WorldValid(w) && w.cached == Some(ch) && ch.id !in w.closed
    requires opening == [] || opening == [OpenChannel(Ack)]
    requires answers.declare.Ack?
    ensures AttemptShape(UseChannel(req, answers, now, w, ch, opening))
    ensures SendCount(UseChannel(req, answers, now, w, ch, opening).events) == 1
  {
    var a := UseChannel(req, answers, now, w, ch, opening);
    var decl := Declaration(req, ch, answers.declare);
    var send := Send(ch, Frame(req.exchange, req.routingKey, false, false, Envelope(req, now)), answers.send);
    if answers.send.Nack? {
      assert a.events == opening + [decl, send, CloseChannel(ch)];
    } else {
      assert a.events == opening + [decl, send];
    }
    NoSleeps(a.events);
    OneSend(a.events, |opening| + 1);
  }

  /** Every attempt has that shape, and it sends exactly when it reaches the send. */
  lemma AttemptFacts(req: Request, answers: Answers, now: int, w: World)
    requires WorldValid(w)
    ensures AttemptShape(Attempt(req, answers, now, w))
    ensures SendCount(Attempt(req, answers, now, w).events) == (if ReachesSend(answers, w) then 1 else 0)
  {
    var a := Attempt(req, answers, now, w);
    if Usable(w) {
      UseChannelFacts(req, answers, now, w, w.cached.value, []);
    } else if answers.create.Nack? {
      assert a.events == [OpenChannel(answers.create)];
      NoSleeps(a.events);
      NoSends(a.events);
    } else {
      var ch := Channel(w.issued);
      UseChannelFacts(req, answers, now, w.(cached := Some(ch), issued := w.issued + 1), ch, [OpenChannel(Ack)]);
    }
  }

  /** The error of an attempt, from the broker's answers: a refused channel, a
      refused declaration of the queue or of the exchange, a refused send, or none
      when the send is accepted. */
  lemma AttemptErrors(req: Request, answers: Answers, now: int, w: World)
    ensures var f := Attempt(req, answers, now, w).failure;
            && (!Usable(w) && answers.create.Nack? ==> f == Some(ChannelUnavailable(answers.create.cause)))
            && ((Usable(w) || answers.create.Ack?) && answers.declare.Nack? ==>
                  f == Some(if req.exchange == "" then QueueDeclareFailed(answers.declare.cause)
                            else ExchangeDeclareFailed(answers.declare.cause)))
            && (ReachesSend(answers, w) && answers.send.Nack? ==> f == Some(SendFailed(answers.send.cause)))
            && (f.None? <==> ReachesSend(answers, w) && answers.send.Ack?)
  {
  }

  /** `m` is the envelope of `req`, stamped with the time its own header carries. */
  predicate IsEnvelope(req: Request, m: Publishing)
  {
    TimestampHeader in m.headers && m.headers[TimestampHeader].HInt? && m == Envelope(req, m.headers[TimestampHeader].i)
  }

  /** What every event of a call is: the topology it declares follows the exchange
      name, pauses last one second, and every send carries the envelope of the
      request. */
  predicate EventOk(req: Request, e: Event)
  {
    match e
    case Sleep(seconds) => seconds == RetryDelaySeconds
    case DeclareQueue(_, queue, _) => req.exchange == "" && queue == req.routingKey
    case DeclareExchange(_, decl, _) => req.exchange != "" && decl == TopicExchange(req.exchange)
    case Send(_, frame, _) =>
      && frame.exchange == req.exchange && frame.routingKey == req.routingKey
      && !frame.mandatory && !frame.immediate
      && IsEnvelope(req, frame.msg)
    case _ => true
  }

  ghost predicate AllOk(req: Request, s: seq<Event>)
  {
    forall i :: 0 <= i < |s| ==> EventOk(req, s[i])
  }

  lemma AllOkAppend(req: Request, x: seq<Event>, y: seq<Event>)
    requires AllOk(req, x) && AllOk(req, y)
    ensures AllOk(req, x + y)
  {
    forall i | 0 <= i < |x + y| ensures EventOk(req, (x + y)[i]) {
      if i >= |x| {
        assert (x + y)[i] == y[i - |x|];
      } else {
        assert (x + y)[i] == x[i];
      }
    }
  }

  lemma AttemptEventsOk(req: Request, answers: Answers, now: int, w: World)
    ensures AllOk(req, Attempt(req, answers, now, w).events)
  {
    var a := Attempt(req, answers, now, w);
    forall i | 0 <= i < |a.events| ensures EventOk(req, a.events[i]) {
      if a.events[i].Send? {
        assert a.events[i].frame.msg == Envelope(req, now);
      }
    }
  }

  // ---------------------------------------------------------------------------
  // A whole call

  lemma {:induction false} RetryEventsOk(req: Request, env: Env, k: nat, w: World, last: Option<AttemptError>)
    requires (k == 0) == last.None?
    ensures AllOk(req, Retry(req, env, k, w, last).events)
    decreases MaxRetries - k
  {
    if k < MaxRetries {
      var pause := Pause(k);
      var a := Attempt(req, env.answers(k), env.clock(k), w);
      AttemptEventsOk(req, env.answers(k), env.clock(k), w);
      assert AllOk(req, pause);
      AllOkAppend(req, pause, a.events);
      if a.failure.Some? {
        RetryEventsOk(req, env, k + 1, a.world, a.failure);
        AllOkAppend(req, pause + a.events, Retry(req, env, k + 1, a.world, a.failure).events);
      }
    }
  }

  /** Every send in `s` comes right after the accepted declaration of its target
      on the same channel. */
  ghost predicate DeclaredBeforeSend(req: Request, s: seq<Event>)
  {
    forall i :: 0 <= i < |s| && s[i].Send? ==> i > 0 && s[i - 1] == Declaration(req, s[i].ch, Ack)
  }

  lemma DeclaredBeforeSendAppend(req: Request, x: seq<Event>, y: seq<Event>)
    requires DeclaredBeforeSend(req, x) && DeclaredBeforeSend(req, y)
    ensures DeclaredBeforeSend(req, x + y)
  {
    forall i | 0 <= i < |x + y| && (x + y)[i].Send?
      ensures i > 0 && (x + y)[i - 1] == Declaration(req, (x + y)[i].ch, Ack)
    {
      if i >= |x| {
        assert (x + y)[i] == y[i - |x|];
        assert (x + y)[i - 1] == y[i - 1 - |x|];
      } else {
        assert (x + y)[i] == x[i];
        assert (x + y)[i - 1] == x[i - 1];
      }
    }
  }

  /** An attempt that holds a channel, cached or new, first declares its queue or
      exchange on it, and sends only right after that declaration is accepted. */
  lemma AttemptDeclaresFirst(req: Request, answers: Answers, now: int, w: World)
    ensures var a := Attempt(req, answers, now, w);
            && DeclaredBeforeSend(req, a.events)
            && (Usable(w) ==> |a.events| > 0 && a.events[0] == Declaration(req, w.cached.value, answers.declare))
            && (!Usable(w) && answers.create.Ack? ==>
                  |a.events| > 1 && a.events[1] == Declaration(req, Channel(w.issued), answers.declare))
  {
  }

  lemma {:induction false} RetryDeclaresFirst(req: Request, env: Env, k: nat, w: World, last: Option<AttemptError>)
    requires (k == 0) == last.None?
    ensures DeclaredBeforeSend(req, Retry(req, env, k, w, last).events)
    decreases MaxRetries - k
  {
    if k < MaxRetries {
      var pause := Pause(k);
      var a := Attempt(req, env.answers(k), env.clock(k), w);
      AttemptDeclaresFirst(req, env.answers(k), env.clock(k), w);
      assert DeclaredBeforeSend(req, pause);
      DeclaredBeforeSendAppend(req, pause, a.events);
      if a.failure.Some? {
        RetryDeclaresFirst(req, env, k + 1, a.world, a.failure);
        DeclaredBeforeSendAppend(req, pause + a.events, Retry(req, env, k + 1, a.world, a.failure).events);
      }
    }
  }

  /** The two topology paths never cross: an empty exchange only ever declares the
      queue named by the routing key, a named exchange only ever declares that
      exchange, as a durable topic exchange that is neither auto-deleted nor
      internal. And the declaration is never skipped: every send of the call comes
      right after the accepted declaration of its queue or exchange on the same
      channel. */
  lemma TopologyPaths(req: Request, env: Env, w: World)
    ensures var r := Retry(req, env, 0, w, None);
            && (forall i :: 0 <= i < |r.events| && r.events[i].Send? ==>
                  && i > 0
                  && r.events[i - 1] == (if req.exchange == "" then DeclareQueue(r.events[i].ch, req.routingKey, Ack)
                                         else DeclareExchange(r.events[i].ch, TopicExchange(req.exchange), Ack)))
            && (forall i :: 0 <= i < |r.events| && r.events[i].DeclareQueue? ==>
                  req.exchange == "" && r.events[i].queue == req.routingKey)
            && (forall i :: 0 <= i < |r.events| && r.events[i].DeclareExchange? ==>
                  var d := r.events[i].decl;
                  && req.exchange != "" && d.name == req.exchange && d.kind == "topic"
                  && d.durable && !d.autoDelete && !d.internal && !d.noWait)
  {
    RetryEventsOk(req, env, 0, w, None);
    RetryDeclaresFirst(req, env, 0, w, None);
    var r := Retry(req, env, 0, w, None);
    assert AllOk(req, r.events);
    forall i | 0 <= i < |r.events| && r.events[i].DeclareQueue?
      ensures req.exchange == "" && r.events[i].queue == req.routingKey
    {
      assert EventOk(req, r.events[i]);
    }
    forall i | 0 <= i < |r.events| && r.events[i].DeclareExchange?
      ensures req.exchange != "" && r.events[i].decl == TopicExchange(req.exchange)
    {
      assert EventOk(req, r.events[i]);
    }
  }

  /** Every send of a call goes to the requested exchange and routing key with
      mandatory and immediate off, carries the payload unchanged as a persistent
      JSON message, and carries the message id derived from the payload; every
      pause lasts one second. */
  lemma SendsAreUniform(req: Request, env: Env, w: World)
    ensures var r := Retry(req, env, 0, w, None);
            && (forall i :: 0 <= i < |r.events| && r.events[i].Send? ==>
                  var f := r.events[i].frame;
                  && f.exchange == req.exchange && f.routingKey == req.routingKey
                  && !f.mandatory && !f.immediate
                  && f.msg.deliveryMode == Persistent && f.msg.contentType == JsonContentType
                  && f.msg.body == req.body
                  && f.msg.messageId == MessageIdOf(req.decoded)
                  && (MessageIdHeader in f.msg.headers <==> f.msg.messageId != "")
                  && (f.msg.messageId != "" ==> f.msg.headers[MessageIdHeader] == HString(f.msg.messageId))
                  && TimestampHeader in f.msg.headers
                  && IsEnvelope(req, f.msg))
            && (forall i :: 0 <= i < |r.events| && r.events[i].Sleep? ==> r.events[i].seconds == RetryDelaySeconds)
  {
    RetryEventsOk(req, env, 0, w, None);
    var r := Retry(req, env, 0, w, None);
    assert AllOk(req, r.events);
    forall i | 0 <= i < |r.events| && r.events[i].Send?
      ensures var f := r.events[i].frame;
              && f.exchange == req.exchange && f.routingKey == req.routingKey
              && !f.mandatory && !f.immediate
              && f.msg.deliveryMode == Persistent && f.msg.contentType == JsonContentType
              && f.msg.body == req.body
              && f.msg.messageId == MessageIdOf(req.decoded)
              && (MessageIdHeader in f.msg.headers <==> f.msg.messageId != "")
              && (f.msg.messageId != "" ==> f.msg.headers[MessageIdHeader] == HString(f.msg.messageId))
              && TimestampHeader in f.msg.headers
              && IsEnvelope(req, f.msg)
    {
      assert EventOk(req, r.events[i]);
      EnvelopeFields(req, r.events[i].frame.msg.headers[TimestampHeader].i);
    }
    forall i | 0 <= i < |r.events| && r.events[i].Sleep? ensures r.events[i].seconds == RetryDelaySeconds {
      assert EventOk(req, r.events[i]);
    }
  }

  /** The shape of what is left of a call from attempt k on. */
  predicate RunShape(k: nat, r: RunOutcome)
  {
    && WorldValid(r.world)
    && r.attempts <= MaxRetries - k
    && (k < MaxRetries ==> r.attempts >= 1 && |r.events| >= 1)
    && (k > 0 && k < MaxRetries ==> |r.events| >= 2 && r.events[0].Sleep?)
    && (k == 0 && r.events != [] ==> !r.events[0].Sleep?)
    && SleepCount(r.events) == (if k == 0 then r.attempts - 1 else r.attempts)
    && SendCount(r.events) <= r.attempts
    && (r.result.Some? ==> r.attempts == MaxRetries - k)
    && (r.result.Some? && k < MaxRetries ==> !Usable(r.world))
    && (r.result.None? ==>
          && r.events != []
          && var e := r.events[|r.events| - 1];
             e.Send? && e.reply == Ack && Usable(r.world) && r.world.cached == Some(e.ch))
    && (r.result.None? ==> TraceError(r.events) == None)
    && (r.result.Some? && k < MaxRetries ==> TraceError(r.events) == Some(r.result.value.last))
    && (forall i :: 0 <= i < |r.events| && r.events[i].Sleep? ==>
          (i == 0 && k > 0) || (i > 0 && EndsFailedAttempt(r.events[i - 1])))
  }

  lemma PauseCounts(k: nat)
    ensures SleepCount(Pause(k)) == (if k > 0 then 1 else 0) && SendCount(Pause(k)) == 0
  {
    if k > 0 {
      assert Pause(k)[1..] == [];
    }
  }

  lemma HeadShape(k: nat, a: AttemptOutcome)
    requires AttemptShape(a)
    ensures var head := Pause(k) + a.events;
            && |head| >= 1
            && head[|head| - 1] == a.events[|a.events| - 1]
            && SleepCount(head) == (if k > 0 then 1 else 0)
            && SendCount(head) <= 1
            && (k == 0 ==> !head[0].Sleep?)
            && (k > 0 ==> |head| >= 2 && head[0].Sleep?)
            && (forall i :: 0 <= i < |head| && head[i].Sleep? ==> i == 0 && k > 0)
            && TraceError(head) == a.failure
  {
    var head := Pause(k) + a.events;
    PauseCounts(k);
    SleepCountAppend(Pause(k), a.events);
    SendCountAppend(Pause(k), a.events);
    TraceErrorSuffix(Pause(k), a.events);
    assert forall i :: |Pause(k)| <= i < |head| ==> head[i] == a.events[i - |Pause(k)|];
    if k == 0 { assert head[0] == a.events[0]; }
  }

  lemma CombineSuccess(k: nat, a: AttemptOutcome, rest: RunOutcome)
    requires k < MaxRetries && AttemptShape(a) && a.failure.None?
    ensures RunShape(k, Combine(k, a, rest))
  {
    HeadShape(k, a);
    assert Combine(k, a, rest) == RunOutcome(a.world, Pause(k) + a.events, 1, None);
  }

  lemma CombineFailure(k: nat, a: AttemptOutcome, rest: RunOutcome)
    requires k < MaxRetries && AttemptShape(a) && a.failure.Some?
    requires k + 1 < MaxRetries ==> RunShape(k + 1, rest)
    requires k + 1 == MaxRetries ==> rest == RunOutcome(a.world, [], 0, Some(Exhausted(a.failure.value)))
    ensures RunShape(k, Combine(k, a, rest))
  {
    var head := Pause(k) + a.events;
    HeadShape(k, a);
    var s := head + rest.events;
    assert Combine(k, a, rest) == RunOutcome(rest.world, s, rest.attempts + 1, rest.result);
    SleepCountAppend(head, rest.events);
    SendCountAppend(head, rest.events);
    if k + 1 < MaxRetries {
      TraceErrorSuffix(head, rest.events);
      assert s[|s| - 1] == rest.events[|rest.events| - 1];
    } else {
      assert s == head;
    }
    if k == 0 { assert s[0] == head[0]; }
    forall i | 0 <= i < |s| && s[i].Sleep?
      ensures (i == 0 && k > 0) || (i > 0 && EndsFailedAttempt(s[i - 1]))
    {
      if i >= |head| {
        var j := i - |head|;
        assert s[i] == rest.events[j];
        if j == 0 {
          assert s[i - 1] == a.events[|a.events| - 1];
        } else {
          assert s[i - 1] == rest.events[j - 1];
        }
      } else {
        assert s[i] == head[i];
      }
    }
  }

  /** Every call, from any attempt k on, has that shape. */
  lemma {:induction false} RetryShape(req: Request, env: Env, k: nat, w: World, last: Option<AttemptError>)
    requires k < MaxRetries && (k == 0) == last.None?
    requires WorldValid(w)
    ensures RunShape(k, Retry(req, env, k, w, last))
    decreases MaxRetries - k
  {
    var a := Attempt(req, env.answers(k), env.clock(k), w);
    AttemptFacts(req, env.answers(k), env.clock(k), w);
    var rest := if a.failure.Some? then Retry(req, env, k + 1, a.world, a.failure)
                else RunOutcome(a.world, [], 0, None);
    if a.failure.Some? && k + 1 < MaxRetries {
      RetryShape(req, env, k + 1, a.world, a.failure);
    }
    if a.failure.None? {
      CombineSuccess(k, a, rest);
    } else {
      CombineFailure(k, a, rest);
    }
    RetryStep(req, env, k, w, last);
  }

  /** At most three attempts; a pause of one second comes before attempts 2 and 3
      and never before the first, and only right after an attempt failed; a call
      that fails has made all three attempts. */
  lemma AttemptsAndPauses(req: Request, env: Env, w: World)
    requires WorldValid(w)
    ensures var r := Retry(req, env, 0, w, None);
            && 1 <= r.attempts <= MaxRetries
            && !r.events[0].Sleep?
            && SleepCount(r.events) == r.attempts - 1
            && SendCount(r.events) <= r.attempts
            && (r.result.Some? ==> r.attempts == MaxRetries)
            && (forall i :: 0 <= i < |r.events| && r.events[i].Sleep? ==>
                  i > 0 && EndsFailedAttempt(r.events[i - 1]))
  {
    RetryShape(req, env, 0, w, None);
  }

  /** A successful call ends with the accepted send, and the channel it used stays
      cached and open for the next call. */
  lemma SuccessKeepsChannel(req: Request, env: Env, w: World)
    requires WorldValid(w)
    ensures var r := Retry(req, env, 0, w, None);
            r.result.None? ==>
              var e := r.events[|r.events| - 1];
              e.Send? && e.reply == Ack && r.world.cached == Some(e.ch) && Usable(r.world)
  {
    RetryShape(req, env, 0, w, None);
  }

  /** A failed call reports the error of its last attempt, as the end of its trace
      shows it, and the last refusal is what it wraps. */
  lemma ExhaustedWrapsLastError(req: Request, env: Env, w: World)
    requires WorldValid(w)
    ensures var r := Retry(req, env, 0, w, None);
            && (r.result.Some? ==> r.attempts == MaxRetries && TraceError(r.events) == Some(r.result.value.last))
            && (r.result.None? ==> TraceError(r.events) == None)
  {
    RetryShape(req, env, 0, w, None);
  }

  /** The first attempt of a call starts the call's trace. */
  lemma CallStartsWithAttempt(req: Request, env: Env, w: World)
    ensures var r := Retry(req, env, 0, w, None);
            var a := Attempt(req, env.answers(0), env.clock(0), w);
            r.events != [] && r.events[0] == a.events[0]
  {
    var a := Attempt(req, env.answers(0), env.clock(0), w);
    OpenOnlyWhenUnusable(req, env.answers(0), env.clock(0), w);
    RetryStep(req, env, 0, w, None);
    var rest := if a.failure.Some? then Retry(req, env, 1, a.world, a.failure) else RunOutcome(a.world, [], 0, None);
    var s := Combine(0, a, rest).events;
    assert s[0] == (Pause(0) + a.events)[0];
  }

  lemma FailedCallLeavesNoChannel(req: Request, env: Env, w: World)
    requires WorldValid(w)
    ensures var r := Retry(req, env, 0, w, None);
            r.result.Some? ==> !Usable(r.world) && WorldValid(r.world)
  {
    RetryShape(req, env, 0, w, None);
  }

  /** After a failed call no usable channel is cached, so the next call starts by
      asking the connection for a new channel. */
  lemma FailedCallForcesNewChannel(req: Request, env: Env, w: World, req': Request, env': Env)
    requires WorldValid(w)
    ensures var r := Retry(req, env, 0, w, None);
            r.result.Some? ==>
              && !Usable(r.world)
              && Retry(req', env', 0, r.world, None).events[0] == OpenChannel(env'.answers(0).create)
  {
    FailedCallLeavesNoChannel(req, env, w);
    var r := Retry(req, env, 0, w, None);
    if r.result.Some? {
      OpenOnlyWhenUnusable(req', env'.answers(0), env'.clock(0), r.world);
      CallStartsWithAttempt(req', env', r.world);
    }
  }

  /** How the counts of a combined run add up. */
  lemma CombineCounts(k: nat, a: AttemptOutcome, rest: RunOutcome)
    ensures var r := Combine(k, a, rest);
            && r.attempts == (if a.failure.None? then 1 else rest.attempts + 1)
            && r.result == (if a.failure.None? then None else rest.result)
            && SendCount(r.events) == SendCount(a.events) + (if a.failure.None? then 0 else SendCount(rest.events))
            && SleepCount(r.events) == (if k > 0 then 1 else 0) + SleepCount(a.events) + (if a.failure.None? then 0 else SleepCount(rest.events))
  {
    PauseCounts(k);
    SendCountAppend(Pause(k), a.events);
    SleepCountAppend(Pause(k), a.events);
    SendCountAppend(Pause(k) + a.events, rest.events);
    SleepCountAppend(Pause(k) + a.events, rest.events);
  }

  /** With a broker that accepts everything at the first attempt, one attempt sends
      the message once, with no pause. */
  lemma HealthyBrokerSendsOnce(req: Request, env: Env, w: World)
    requires WorldValid(w)
    requires env.answers(0) == Answers(Ack, Ack, Ack)
    ensures var r := Retry(req, env, 0, w, None);
            && r.result == None && r.attempts == 1 && SendCount(r.events) == 1 && SleepCount(r.events) == 0
            && |r.events| >= 2 && r.events[|r.events| - 1].Send?
            && r.events[|r.events| - 2] == Declaration(req, r.events[|r.events| - 1].ch, Ack)
  {
    AttemptFacts(req, env.answers(0), env.clock(0), w);
    AttemptDeclaresFirst(req, env.answers(0), env.clock(0), w);
    AttemptErrors(req, env.answers(0), env.clock(0), w);
    var a := Attempt(req, env.answers(0), env.clock(0), w);
    assert ReachesSend(env.answers(0), w);
    assert a.failure.None?;
    var r := Retry(req, env, 0, w, None);
    assert r.events == [] + a.events;
    assert r.events == a.events;
  }

  /** Two refused sends and then an accepted one: the call succeeds at the third
      attempt, after sending three times and pausing twice. */
  lemma RecoversOnThirdAttempt(req: Request, env: Env, w: World, c0: string, c1: string)
    requires WorldValid(w)
    requires env.answers(0) == Answers(Ack, Ack, Nack(c0))
    requires env.answers(1) == Answers(Ack, Ack, Nack(c1))
    requires env.answers(2) == Answers(Ack, Ack, Ack)
    ensures var r := Retry(req, env, 0, w, None);
            r.result == None && r.attempts == 3 && SendCount(r.events) == 3 && SleepCount(r.events) == 2
  {
    var a0 := Attempt(req, env.answers(0), env.clock(0), w);
    AttemptFacts(req, env.answers(0), env.clock(0), w);
    AttemptErrors(req, env.answers(0), env.clock(0), w);
    var a1 := Attempt(req, env.answers(1), env.clock(1), a0.world);
    AttemptFacts(req, env.answers(1), env.clock(1), a0.world);
    AttemptErrors(req, env.answers(1), env.clock(1), a0.world);
    var a2 := Attempt(req, env.answers(2), env.clock(2), a1.world);
    AttemptFacts(req, env.answers(2), env.clock(2), a1.world);
    AttemptErrors(req, env.answers(2), env.clock(2), a1.world);
    RetryStep(req, env, 2, a1.world, a1.failure);
    CombineCounts(2, a2, RunOutcome(a2.world, [], 0, None));
    RetryStep(req, env, 1, a0.world, a0.failure);
    CombineCounts(1, a1, Retry(req, env, 2, a1.world, a1.failure));
    RetryStep(req, env, 0, w, None);
    CombineCounts(0, a0, Retry(req, env, 1, a0.world, a0.failure));
  }
}
