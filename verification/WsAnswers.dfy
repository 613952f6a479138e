/**
 What one message of a WebSocket session causes, call by call: what the broker is asked, with
 which data, and which frame the client gets back.
 */
module WsAnswers {
  import opened Basics
  import opened Endpoints
  import opened EndpointMatching
  import opened AccessPipeline
  import opened WsSession

  /** Requests, publishes and monitors: the messages with an endpoint. */
  predicate Addressed(m: Message) {
    m.kind == Request || m.kind == Publishing || m.kind == Monitor
  }

  /** The pattern a message addresses: publishes go to what is no event, like requests. */
  function Addressee(handlers: seq<PatternData>, m: Message): Option<PatternData> {
    Lookup(Having(handlers, if m.kind == Monitor then {"EVENT"} else {"GET", "POST", "PUT", "PATCH", "DELETE"}),
           m.endpoint + "." + m.verb)
  }

  /** The session keeps a token only if the authenticator accepts it again. */
  predicate Renewed(s: State, w: Answers) {
    s.token == "" || w.accepted.Some?
  }

  function TokenNow(s: State, w: Answers): string
    requires Renewed(s, w)
  {
    if s.token == "" then "" else w.accepted.value
  }

  /** The renewal, if there is a token to renew. */
  function Renewal(s: State, w: Answers): seq<Action> {
    if s.token == "" then [] else [Validated(s.token, w.accepted)]
  }

  /** The frame that tells the client an error. */
  function Told(m: Message, e: Err, w: Answers): Action {
    Wrote(Message(m.id, Error, m.endpoint, m.verb, m.token, Problem(e)), w.errorWritten)
  }

  /** The step appends exactly these actions, and the session goes on. */
  predicate Causes(s: State, handlers: seq<PatternData>, m: Message, w: Answers, actions: seq<Action>) {
    var t := Step(s, handlers, Received(m, w));
    t.log == s.log + actions && t.loop == s.loop
  }

  lemma Addresses(s: State, handlers: seq<PatternData>, m: Message, w: Answers)
    requires Addressed(m) && w.panics == None
    ensures Handle(s, handlers, m, w) == Address(s, handlers, m, w)
    ensures Lookup(Having(handlers, VerbsFor(m.kind)), SpecificEndpoint(m)) == Addressee(handlers, m)
    ensures var (t, r) := Revalidate(s, w);
      && t.log == s.log + Renewal(s, w) && t.loop == s.loop && t.id == s.id
      && (r == Done <==> Renewed(s, w)) && (Renewed(s, w) ==> t.token == TokenNow(s, w))
      && (!Renewed(s, w) ==> r == Failed(Err(401, "not authorized")))
  {
    hide Lookup, Having, Address;
    assert m.endpoint + "." + m.verb == SpecificEndpoint(m);
  }

  // ---- the answers to an addressed message ----

  /** A token that is not accepted any more: nothing is looked up, asked or called. */
  lemma UnauthorizedAnswer(s: State, handlers: seq<PatternData>, m: Message, w: Answers)
    requires Addressed(m) && w.panics == None && !Renewed(s, w)
    ensures Causes(s, handlers, m, w, Renewal(s, w) + [Told(m, Err(401, "not authorized"), w)])
  {
    Addresses(s, handlers, m, w);
    Settles(s, handlers, m, w);
    hide Lookup, Having, Revalidate, Step, Handle, Told, Renewal;
    Regroup(s.log, Renewal(s, w), [Told(m, Err(401, "not authorized"), w)]);
  }

  /** An endpoint nothing is registered for. */
  lemma UnknownAnswer(s: State, handlers: seq<PatternData>, m: Message, w: Answers)
    requires Addressed(m) && w.panics == None && Renewed(s, w) && Addressee(handlers, m) == None
    ensures Causes(s, handlers, m, w,
                   Renewal(s, w) + [Told(m, Err(503, "service " + (m.endpoint + "." + m.verb) + " unavailable"), w)])
  {
    Addresses(s, handlers, m, w);
    Settles(s, handlers, m, w);
    assert m.endpoint + "." + m.verb == SpecificEndpoint(m);
    hide Lookup, Having, Revalidate, Addressee, Step, Handle, Told, Renewal, Renewed, SpecificEndpoint;
    Regroup(s.log, Renewal(s, w), [Told(m, ServiceUnavailable(SpecificEndpoint(m)), w)]);
  }

  /** The permission is asked for the addressed pattern, the message's own data and the session's token. */
  function Asked(s: State, p: PatternData, m: Message, w: Answers): seq<Action>
    requires Renewed(s, w)
  {
    Renewal(s, w) + [Checked(p, m.data, TokenNow(s, w), w.allowed)]
  }

  /** Up to the permission, and on to the broker call. */
  lemma AsksPermission(s: State, handlers: seq<PatternData>, m: Message, w: Answers)
    requires Addressed(m) && w.panics == None && Renewed(s, w) && Addressee(handlers, m).Some?
    ensures var p := Addressee(handlers, m).value;
      var u := Permit(Revalidate(s, w).0, p, m, w).0;
      && Handle(s, handlers, m, w) == (if w.allowed then Perform(u, p, m, w) else (u, Failed(Err(403, "forbidden"))))
      && u.log == s.log + Asked(s, p, m, w) && u.loop == s.loop && u.id == s.id && u.token == TokenNow(s, w)
  {
    Addresses(s, handlers, m, w);
    hide Lookup, Having, Revalidate, Addressee, Perform, Renewal, SpecificEndpoint, Handle, Renewed;
    var p := Addressee(handlers, m).value;
    Regroup(s.log, Renewal(s, w), [Checked(p, m.data, TokenNow(s, w), w.allowed)]);
  }

  lemma ForbiddenAnswer(s: State, handlers: seq<PatternData>, m: Message, w: Answers)
    requires Addressed(m) && w.panics == None && Renewed(s, w) && Addressee(handlers, m).Some? && !w.allowed
    ensures Causes(s, handlers, m, w,
                   Asked(s, Addressee(handlers, m).value, m, w) + [Told(m, Err(403, "forbidden"), w)])
  {
    AsksPermission(s, handlers, m, w);
    Settles(s, handlers, m, w);
    hide Handle, Permit, Revalidate, Addressee, Asked, Step, Told, Renewed, Perform;
    Regroup(s.log, Asked(s, Addressee(handlers, m).value, m, w), [Told(m, Err(403, "forbidden"), w)]);
  }

  /** What the broker is called with: the addressed pattern, the message's own data, the session's token. */
  function Call(s: State, p: PatternData, m: Message, w: Answers): BrokerCall
    requires Renewed(s, w)
  {
    match m.kind
    case Request => ToRequest(p, m.data, TokenNow(s, w))
    case Publishing => ToPublish(p, m.data, TokenNow(s, w))
    case _ => ToMonitor(s.id, p, TokenNow(s, w), w.broker == None)
  }

  /** The message passes: its token is accepted again, it addresses a pattern and it is permitted. */
  predicate Passes(s: State, handlers: seq<PatternData>, m: Message, w: Answers) {
    Addressed(m) && w.panics == None && Renewed(s, w) && Addressee(handlers, m).Some? && w.allowed
  }

  /** Up to and with the broker call. */
  function Brokered(s: State, p: PatternData, m: Message, w: Answers): seq<Action>
    requires Renewed(s, w)
  {
    Asked(s, p, m, w) + [Called(Call(s, p, m, w))]
  }

  lemma PassesToBroker(s: State, handlers: seq<PatternData>, m: Message, w: Answers) returns (u: State, t: State)
    requires Passes(s, handlers, m, w)
    ensures var p := Addressee(handlers, m).value;
      && Handle(s, handlers, m, w) == Perform(u, p, m, w)
      && t == Do(u, Called(CallFor(u, p, m, w)))
      && t.log == s.log + Brokered(s, p, m, w) && t.loop == s.loop
  {
    AsksPermission(s, handlers, m, w);
    var p := Addressee(handlers, m).value;
    u := Permit(Revalidate(s, w).0, p, m, w).0;
    t := Do(u, Called(CallFor(u, p, m, w)));
    assert CallFor(u, p, m, w) == Call(s, p, m, w);
    hide Handle, Permit, Revalidate, Addressee, Asked, Perform, CallFor, Call, Renewed, Do;
    Regroup(s.log, Asked(s, p, m, w), [Called(Call(s, p, m, w))]);
  }

  /** The broker's own error goes to the client as it is; that of a publish as an internal error with its text. */
  lemma BrokerErrorAnswer(s: State, handlers: seq<PatternData>, m: Message, w: Answers)
    requires Passes(s, handlers, m, w) && w.broker.Some?
    ensures var e := if m.kind == Publishing then Err(500, w.broker.value.message) else w.broker.value;
      Causes(s, handlers, m, w, Brokered(s, Addressee(handlers, m).value, m, w) + [Told(m, e, w)])
  {
    var e := if m.kind == Publishing then Err(500, w.broker.value.message) else w.broker.value;
    assert CallError(m, w.broker.value) == e;
    var u, t := PassesToBroker(s, handlers, m, w);
    Settles(s, handlers, m, w);
    hide Handle, Addressee, Step, Told, Renewed, Brokered, Do, CallFor, CallError;
    Regroup(s.log, Brokered(s, Addressee(handlers, m).value, m, w), [Told(m, e, w)]);
  }

  /** An accepted publish is not answered. */
  lemma PublishAnswer(s: State, handlers: seq<PatternData>, m: Message, w: Answers)
    requires Passes(s, handlers, m, w) && w.broker == None && m.kind == Publishing
    ensures Causes(s, handlers, m, w, Brokered(s, Addressee(handlers, m).value, m, w))
  {
    var u, t := PassesToBroker(s, handlers, m, w);
    Settles(s, handlers, m, w);
    hide Handle, Addressee, Step, Told, Renewed, Brokered, Do, CallFor;
  }

  lemma PerformResponse(u: State, p: PatternData, m: Message, w: Answers)
    requires (m.kind == Request || m.kind == Monitor) && w.panics == None && w.broker == None
    ensures var (t, r) := Perform(u, p, m, w);
      var called := Do(u, Called(CallFor(u, p, m, w)));
      var frame := Message(m.id, Response, m.endpoint, m.verb, m.token,
                           if m.kind == Request then Raw(w.response) else Empty);
      && t.log == called.log + [Wrote(frame, w.written)] && t.loop == u.loop
      && r == if w.written then Done else Failed(Err(500, "write failed"))
  {
    hide CallFor;
  }

  /** A request gets the broker's response, a monitor an empty one; if that cannot be written, an error is tried. */
  lemma ResponseAnswer(s: State, handlers: seq<PatternData>, m: Message, w: Answers)
    requires Passes(s, handlers, m, w) && w.broker == None && m.kind != Publishing
    ensures var frame := Message(m.id, Response, m.endpoint, m.verb, m.token,
                                 if m.kind == Request then Raw(w.response) else Empty);
      var answered := Brokered(s, Addressee(handlers, m).value, m, w) + [Wrote(frame, w.written)];
      && (w.written ==> Causes(s, handlers, m, w, answered))
      && (!w.written ==> Causes(s, handlers, m, w, answered + [Told(m, Err(500, "write failed"), w)]))
  {
    var p := Addressee(handlers, m).value;
    var u, t := PassesToBroker(s, handlers, m, w);
    PerformResponse(u, p, m, w);
    Settles(s, handlers, m, w);
    hide Handle, Addressee, Step, Told, Renewed, Brokered, Do, CallFor, Perform;
    var frame := Message(m.id, Response, m.endpoint, m.verb, m.token,
                         if m.kind == Request then Raw(w.response) else Empty);
    var brokered, wrote := Brokered(s, p, m, w), [Wrote(frame, w.written)];
    Regroup(s.log, brokered, wrote);
    Regroup(s.log, brokered + wrote, [Told(m, Err(500, "write failed"), w)]);
  }

  /** How the round ends. */
  lemma Settles(s: State, handlers: seq<PatternData>, m: Message, w: Answers)
    ensures var (t, r) := Handle(s, handlers, m, w);
      var u := Step(s, handlers, Received(m, w));
      && (r == Done ==> u == t)
      && (r.Failed? ==> u.log == t.log + [Told(m, r.err, w)] && u.loop == t.loop)
  {
    hide Handle;
  }

  // ---- the other messages ----

  /** A token message: the authenticator is asked for it, and what it accepts is echoed and kept. */
  lemma TokenAnswer(s: State, handlers: seq<PatternData>, m: Message, w: Answers)
    requires m.kind == Token && w.panics == None
    ensures m.token == "" ==> Causes(s, handlers, m, w, [Told(m, Err(400, "invalid params"), w)])
    ensures m.token != "" && w.accepted == None ==>
      Causes(s, handlers, m, w, [Validated(m.token, None)] + [Told(m, Err(401, "not authorized"), w)])
    ensures m.token != "" && w.accepted.Some? ==>
      var token := w.accepted.value;
      var echo := Message(m.id, Token, m.endpoint, m.verb, token, m.data);
      && Step(s, handlers, Received(m, w)).token == token
      && Causes(s, handlers, m, w, [Validated(m.token, w.accepted)] + [Wrote(echo, w.written)]
           + if !w.written then [Told(m, Err(500, "write failed"), w)]
             else if s.token == "" then [Connected(token)] else [])
  {
  }

  /** A keep-alive comes back as it is; an unhandled message causes nothing; what cannot be read, an error frame. */
  lemma OtherAnswers(s: State, handlers: seq<PatternData>, m: Message, w: Answers, text: string)
    requires w.panics == None
    ensures m.kind == KeepAlive ==> Causes(s, handlers, m, w,
      [Wrote(m, w.written)] + if w.written then [] else [Told(m, Err(500, "internal error"), w)])
    ensures Ignored(m.kind) ==> Step(s, handlers, Received(m, w)) == s
    ensures var t := Step(s, handlers, ReadFailed(m, text, w.errorWritten));
      t.log == s.log + [Told(m, Err(500, text), w)] && t.loop == s.loop
  {
  }

  // ---- the session's own state ----

  /** Only an accepted token message changes the session's id, to its own. */
  lemma IdFollows(s: State, handlers: seq<PatternData>, e: SessionEvent)
    ensures Step(s, handlers, e).id ==
      if e.Received? && e.m.kind == Token && e.m.token != "" && e.answers.panics != Some(Validating)
        && e.answers.accepted.Some? then e.m.id else s.id
  {
    hide Lookup, Having;
  }

  /** A close frame cancels the context, then the disconnected event tells the session's own id and token. */
  lemma ClosedSession(s: State, handlers: seq<PatternData>)
    requires Enabled(s, CloseFrame)
    ensures var t := Step(s, handlers, CloseFrame);
      && Enabled(t, PublishesDisconnect)
      && var u := Step(t, handlers, PublishesDisconnect);
         u.log == s.log + [Cancelled] + [Disconnected(s.id, s.token)] && u.loop == Closed
  {
  }

  /** Where a panic happens, if the message gets that far. */
  predicate Gets(s: State, handlers: seq<PatternData>, m: Message, w: Answers, place: Place) {
    match place
    case Validating => (m.kind == Token && m.token != "") || (Addressed(m) && s.token != "")
    case Permitting => Addressed(m) && Renewed(s, w) && Addressee(handlers, m).Some?
    case Calling => Addressed(m) && Renewed(s, w) && Addressee(handlers, m).Some? && w.allowed
    case Writing =>
      m.kind == KeepAlive || (m.kind == Token && m.token != "" && w.accepted.Some?)
      || (m.kind != Publishing && Addressed(m) && Renewed(s, w) && Addressee(handlers, m).Some? && w.allowed
          && w.broker == None)
  }

  /** A message ends the loop exactly when a call it gets to panics. */
  lemma PanicEndsLoop(s: State, handlers: seq<PatternData>, m: Message, w: Answers)
    requires s.loop == Running
    ensures Step(s, handlers, Received(m, w)).loop == Loop.Crashed <==>
      w.panics.Some? && Gets(s, handlers, m, w, w.panics.value)
    ensures Step(s, handlers, Received(m, w)).loop == Running || Step(s, handlers, Received(m, w)).loop == Loop.Crashed
  {
    hide Lookup, Having;
    if Addressed(m) {
      AddressPanics(s, handlers, m, w);
      hide Address;
    }
  }

  lemma AddressPanics(s: State, handlers: seq<PatternData>, m: Message, w: Answers)
    requires Addressed(m)
    ensures Address(s, handlers, m, w).1 == Panicked <==> w.panics.Some? && Gets(s, handlers, m, w, w.panics.value)
  {
    hide Lookup, Having;
    assert m.endpoint + "." + m.verb == SpecificEndpoint(m);
    assert Lookup(Having(handlers, VerbsFor(m.kind)), SpecificEndpoint(m)) == Addressee(handlers, m);
    hide Addressee, SpecificEndpoint, ResponseTo, CallFor, CallError, Do;
  }

  // ---- over every run ----

  /** A broker call is that of a message that passed: with its pattern, its data and the session's token. */
  ghost predicate CallOf(call: BrokerCall, checked: Action, handlers: seq<PatternData>, m: Message, id: string) {
    && Addressee(handlers, m) == Some(PatternOf(call))
    && checked.Checked? && checked.allowed && checked.pattern == PatternOf(call) && checked.data == m.data
    && checked.token == TokenOf(call)
    && match call
       case ToRequest(_, data, _) => m.kind == Request && data == m.data
       case ToPublish(_, data, _) => m.kind == Publishing && data == m.data
       case ToMonitor(group, _, _, _) => m.kind == Monitor && group == id
  }

  function PatternOf(c: BrokerCall): PatternData {
    match c case ToRequest(p, _, _) => p case ToPublish(p, _, _) => p case ToMonitor(_, p, _, _) => p
  }

  lemma PerformCalls(u: State, p: PatternData, m: Message, w: Answers, i: nat)
    requires Addressed(m) && |u.log| <= i < |Perform(u, p, m, w).0.log| && Perform(u, p, m, w).0.log[i].Called?
    ensures i == |u.log| && u.log <= Perform(u, p, m, w).0.log
    ensures var call := Perform(u, p, m, w).0.log[i].call;
      && PatternOf(call) == p && TokenOf(call) == u.token
      && match call
         case ToRequest(_, data, _) => m.kind == Request && data == m.data
         case ToPublish(_, data, _) => m.kind == Publishing && data == m.data
         case ToMonitor(group, _, _, _) => m.kind == Monitor && group == u.id
  {
    hide ResponseTo, CallError;
  }

  lemma AddressCalls(s: State, handlers: seq<PatternData>, m: Message, w: Answers, i: nat)
    requires Addressed(m)
    requires var t := Address(s, handlers, m, w).0; |s.log| <= i < |t.log| && t.log[i].Called?
    ensures var t := Address(s, handlers, m, w).0;
      i >= 1 && CallOf(t.log[i].call, t.log[i - 1], handlers, m, s.id)
  {
    hide Lookup, Having;
    assert m.endpoint + "." + m.verb == SpecificEndpoint(m);
    assert Lookup(Having(handlers, VerbsFor(m.kind)), SpecificEndpoint(m)) == Addressee(handlers, m);
    hide Addressee, SpecificEndpoint, Perform;
    var (t, valid) := Revalidate(s, w);
    assert forall j | |s.log| <= j < |t.log| :: !t.log[j].Called?;
    match Lookup(Having(handlers, VerbsFor(m.kind)), SpecificEndpoint(m))
    case None =>
    case Some(p) =>
      var (u, permitted) := Permit(t, p, m, w);
      assert forall j | |s.log| <= j < |u.log| :: !u.log[j].Called?;
      assert permitted == Done ==> u.log[|u.log| - 1] == Checked(p, m.data, u.token, true);
      if valid == Done && permitted == Done {
        var log := Perform(u, p, m, w).0.log;
        assert u.log <= log;
        assert forall j | |s.log| <= j < |u.log| :: log[j] == u.log[j];
        PerformCalls(u, p, m, w, i);
      }
  }

  /** Only these come from a message. */
  lemma CallsOfMessage(s: State, handlers: seq<PatternData>, m: Message, w: Answers, i: nat)
    requires var t := Step(s, handlers, Received(m, w)); |s.log| <= i < |t.log| && t.log[i].Called?
    ensures var t := Step(s, handlers, Received(m, w));
      i >= 1 && CallOf(t.log[i].call, t.log[i - 1], handlers, m, s.id)
  {
    hide Lookup, Having;
    if Addressed(m) {
      hide Address, CallOf;
      AddressCalls(s, handlers, m, w, i);
    }
  }

  /**
   In every run each request, publish and monitor is caused by a message of that kind, goes to
   the pattern that message addresses, and carries exactly the data that the permission was
   asked for just before, which is the message's own.
   */
  lemma {:induction false} CallsCarryTheirMessage(handlers: seq<PatternData>, run: seq<State>,
                                                  events: seq<SessionEvent>, n: nat, i: nat)
    requires IsRun(handlers, run, events) && n < |events|
    requires |run[n].log| <= i < |run[n + 1].log| && run[n + 1].log[i].Called?
    ensures events[n].Received? && i >= 1
    ensures CallOf(run[n + 1].log[i].call, run[n + 1].log[i - 1], handlers, events[n].m, run[n].id)
  {
    assert Moves(run[n], handlers, events[n], run[n + 1]);
    hide IsRun, Handle;
    if events[n].Received? {
      CallsOfMessage(run[n], handlers, events[n].m, events[n].answers, i);
    }
  }
}
