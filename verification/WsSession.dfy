/**
 A WebSocket session (v2/pkg/spike/socket): the message loop of ws.go, the session fields of
 connection.go and the handlers of the five message types.  Every outside call the session
 makes is an entry of its log; the theorems are about the log of any run, whatever the
 client sends and whatever the authenticator, the authorizer, the broker and the socket answer.
 */
module WsSession {
  import opened Basics
  import opened Endpoints
  import opened EndpointMatching
  import opened AccessPipeline
  import opened GoStrings
  import Handshake = ValidationHandshake
  import Replies = RequestReply

  datatype MessageKind = Request | Response | Publishing | Subscribe | Monitor | Unsubscribe | Token | Error |
      KeepAlive | Unknown

  datatype Payload = Empty | Client(json: string) | Raw(json: string) | Problem(err: Err)

  datatype Message = Message(id: string, kind: MessageKind, endpoint: string, verb: string, token: string,
      data: Payload)

  const INVALID_PARAMS := Err(400, "invalid params")
  const INTERNAL_ERROR := Err(500, "internal error")

  function ServiceUnavailable(endpoint: string): Err {
    Err(503, "service " + endpoint + " unavailable")
  }

  function SpecificEndpoint(m: Message): string {
    m.endpoint + "." + m.verb
  }

  // ---- the patterns a session may address ----

  const REQUEST_VERBS := {"GET", "POST", "PUT", "PATCH", "DELETE"}
  const EVENT_VERBS := {EVENT}

  function Having(patterns: seq<PatternData>, verbs: set<string>): (r: seq<PatternData>)
    ensures forall p | p in r :: p in patterns && p.httpMethod in verbs
    ensures forall p | p in patterns && p.httpMethod in verbs :: p in r
  {
    if patterns == [] then []
    else (if patterns[0].httpMethod in verbs then [patterns[0]] else []) + Having(patterns[1..], verbs)
  }

  lemma HavingNone(none: seq<PatternData>, verbs: set<string>)
    requires none == []
    ensures Having(none, verbs) == []
  {
  }

  lemma HavingNext(patterns: seq<PatternData>, i: nat, verbs: set<string>)
    requires i < |patterns|
    ensures Having(patterns[i..], verbs) ==
      if patterns[i].httpMethod in verbs then [patterns[i]] + Having(patterns[i + 1..], verbs)
      else Having(patterns[i + 1..], verbs)
  {
    assert patterns[i..][1..] == patterns[i + 1..];
  }

  // ---- what the session does to the outside ----

  datatype BrokerCall =
    | ToRequest(pattern: PatternData, data: Payload, token: string)
    | ToPublish(pattern: PatternData, data: Payload, token: string)
    | ToMonitor(group: string, pattern: PatternData, token: string, subscribed: bool)

  datatype Action =
    | Validated(asked: string, accepted: Option<string>)
    | Checked(pattern: PatternData, data: Payload, token: string, allowed: bool)
    | Called(call: BrokerCall)
    | Wrote(frame: Message, ok: bool)
    | Connected(token: string)
    | Cancelled
    | Disconnected(id: string, token: string)
    | Unsubscribed(monitor: nat)

  datatype Loop = Running | Closing | Closed | Crashed

  /** `monitors` opened so far, numbered from 0; the goroutines of those in `waiting` still wait for the context. */
  datatype State = State(token: string, id: string, loop: Loop, monitors: nat, waiting: set<nat>, log: seq<Action>)

  function Opened(id: string): State {
    State("", id, Running, 0, {}, [])
  }

  /** One outside call and its effect on the session. */
  function Do(s: State, a: Action): (t: State)
    ensures t.log == s.log + [a] && t.loop == s.loop && t.id == s.id
  {
    var t := s.(log := s.log + [a]);
    match a
    case Validated(_, Some(token)) => t.(token := token)
    case Called(ToMonitor(_, _, _, true)) => t.(monitors := s.monitors + 1, waiting := s.waiting + {s.monitors})
    case Unsubscribed(k) => t.(waiting := s.waiting - {k})
    case _ => t
  }

  // ---- the answers a message meets ----

  datatype Place = Validating | Permitting | Calling | Writing

  /** What the outside answers while one message is handled, and where one of the calls panics, if it does. */
  datatype Answers = Answers(
    accepted: Option<string>,
    allowed: bool,
    broker: Option<Err>,
    response: string,
    written: bool,
    errorWritten: bool,
    panics: Option<Place>)

  datatype Result = Done | Failed(err: Err) | Panicked

  // ---- the handlers, as functions ----

  function Revalidate(s: State, w: Answers): (r: (State, Result))
    ensures r.0.loop == s.loop && s.log <= r.0.log
  {
    if s.token == "" then (s, Done)
    else if w.panics == Some(Validating) then (s, Panicked)
    else (Do(s, Validated(s.token, w.accepted)), if w.accepted == None then Failed(UNAUTHORIZED) else Done)
  }

  function Permit(s: State, p: PatternData, m: Message, w: Answers): (r: (State, Result))
    ensures r.0.loop == s.loop && s.log <= r.0.log
  {
    if w.panics == Some(Permitting) then (s, Panicked)
    else (Do(s, Checked(p, m.data, s.token, w.allowed)), if w.allowed then Done else Failed(FORBIDDEN))
  }

  function Answer(s: State, frame: Message, w: Answers, failure: Err): (r: (State, Result))
    ensures r.0.loop == s.loop && s.log <= r.0.log
  {
    if w.panics == Some(Writing) then (s, Panicked)
    else (Do(s, Wrote(frame, w.written)), if w.written then Done else Failed(failure))
  }

  const WRITE_FAILED := InternalError("write failed")

  function CallFor(s: State, p: PatternData, m: Message, w: Answers): BrokerCall {
    if m.kind == Request then ToRequest(p, m.data, s.token)
    else if m.kind == Publishing then ToPublish(p, m.data, s.token)
    else ToMonitor(s.id, p, s.token, w.broker == None)
  }

  /** The error of a failed broker call: `Publish` errors are wrapped once more. */
  function CallError(m: Message, e: Err): Err {
    if m.kind == Publishing then InternalError(e.message) else e
  }

  function ResponseTo(m: Message, w: Answers): Message {
    m.(kind := Response, data := if m.kind == Request then Raw(w.response) else Empty)
  }

  /** The broker call of an admitted message, and its response frame (a publish has none). */
  function Perform(s: State, p: PatternData, m: Message, w: Answers): (r: (State, Result))
    ensures r.0.loop == s.loop && s.log <= r.0.log
  {
    if w.panics == Some(Calling) then (s, Panicked)
    else
      var t := Do(s, Called(CallFor(s, p, m, w)));
      if w.broker.Some? then (t, Failed(CallError(m, w.broker.value)))
      else if m.kind == Publishing then (t, Done)
      else Answer(t, ResponseTo(m, w), w, WRITE_FAILED)
  }

  function VerbsFor(kind: MessageKind): set<string> {
    if kind == Request || kind == Publishing then REQUEST_VERBS else EVENT_VERBS
  }

  /** The handlers of request, publish and monitor messages. */
  function Address(s: State, handlers: seq<PatternData>, m: Message, w: Answers): (r: (State, Result))
    ensures r.0.loop == s.loop && s.log <= r.0.log
  {
    var (t, valid) := Revalidate(s, w);
    if valid != Done then (t, valid)
    else match Lookup(Having(handlers, VerbsFor(m.kind)), SpecificEndpoint(m))
      case None => (t, Failed(ServiceUnavailable(SpecificEndpoint(m))))
      case Some(p) =>
        var (u, permitted) := Permit(t, p, m, w);
        if permitted != Done then (u, permitted) else Perform(u, p, m, w)
  }

  /** The handler of token messages. */
  function Authenticate(s: State, m: Message, w: Answers): (r: (State, Result))
    ensures r.0.loop == s.loop && s.log <= r.0.log
  {
    if m.token == "" then (s, Failed(INVALID_PARAMS))
    else if w.panics == Some(Validating) then (s, Panicked)
    else
      var t := Do(s, Validated(m.token, w.accepted));
      if w.accepted == None then (t, Failed(UNAUTHORIZED))
      else
        var (u, written) := Answer(t.(id := m.id), m.(token := w.accepted.value), w, WRITE_FAILED);
        if written == Done && s.token == "" then (Do(u, Connected(u.token)), Done) else (u, written)
  }

  function Handle(s: State, handlers: seq<PatternData>, m: Message, w: Answers): (r: (State, Result))
    ensures r.0.loop == s.loop && s.log <= r.0.log
  {
    match m.kind
    case Token => Authenticate(s, m, w)
    case KeepAlive => Answer(s, m, w, INTERNAL_ERROR)
    case Request => Address(s, handlers, m, w)
    case Publishing => Address(s, handlers, m, w)
    case Monitor => Address(s, handlers, m, w)
    case _ => (s, Done)
  }

  function ErrorFrame(m: Message, e: Err): Message {
    m.(kind := Error, data := Problem(e))
  }

  /**
   The end of a round of the loop: an error goes to the client, a panic ends the loop without
   cancelling the context.
   */
  function Settle(sr: (State, Result), m: Message, errorWritten: bool): State {
    match sr.1
    case Done => sr.0
    case Failed(e) => Do(sr.0, Wrote(ErrorFrame(m, e), errorWritten))
    case Panicked => sr.0.(loop := Loop.Crashed)
  }

  // ---- runs ----

  datatype SessionEvent =
    | Received(m: Message, answers: Answers)
    | ReadFailed(partial: Message, message: string, errorWritten: bool)
    | ReadPanics
    | CloseFrame
    | PublishesDisconnect
    | WaiterRuns(monitor: nat)

  /** The loop reads one frame after another; the waiting goroutines run at any time once the context is cancelled. */
  predicate Enabled(s: State, e: SessionEvent) {
    match e
    case Received(_, _) => s.loop == Running
    case ReadFailed(_, _, _) => s.loop == Running
    case ReadPanics => s.loop == Running
    case CloseFrame => s.loop == Running
    case PublishesDisconnect => s.loop == Closing
    case WaiterRuns(k) => (s.loop == Closing || s.loop == Closed) && k in s.waiting
  }

  function Step(s: State, handlers: seq<PatternData>, e: SessionEvent): State {
    match e
    case Received(m, w) => Settle(Handle(s, handlers, m, w), m, w.errorWritten)
    case ReadFailed(m, message, ok) => Do(s, Wrote(ErrorFrame(m, InternalError(message)), ok))
    case ReadPanics => s.(loop := Loop.Crashed)
    case CloseFrame => Do(s, Cancelled).(loop := Closing)
    case PublishesDisconnect => Do(s, Disconnected(s.id, s.token)).(loop := Closed)
    case WaiterRuns(k) => Do(s, Unsubscribed(k))
  }

  predicate Moves(s: State, handlers: seq<PatternData>, e: SessionEvent, t: State) {
    Enabled(s, e) && t == Step(s, handlers, e)
  }

  /** A run of a connection: its states, from the opened one on, and the events between them. */
  predicate IsRun(handlers: seq<PatternData>, run: seq<State>, events: seq<SessionEvent>) {
    && |run| == |events| + 1
    && run[0] == Opened(run[0].id)
    && forall i {:trigger events[i]} | 0 <= i < |events| :: Moves(run[i], handlers, events[i], run[i + 1])
  }

  // ---- reading a log ----

  function Init(log: seq<Action>): seq<Action>
    requires log != []
  {
    log[..|log| - 1]
  }

  function Last(log: seq<Action>): Action
    requires log != []
  {
    log[|log| - 1]
  }

  predicate Accepts(a: Action) {
    a.Validated? && a.accepted.Some?
  }

  /** The token of the latest accepted validation; empty when there is none. */
  function LatestAccepted(log: seq<Action>): string {
    if log == [] then ""
    else if Accepts(Last(log)) then Last(log).accepted.value
    else LatestAccepted(Init(log))
  }

  /** The authenticator never accepted with an empty token. */
  predicate NonEmptyTokens(log: seq<Action>) {
    forall i | 0 <= i < |log| && Accepts(log[i]) :: log[i].accepted.value != ""
  }

  function TokenOf(c: BrokerCall): string {
    match c case ToRequest(_, _, t) => t case ToPublish(_, _, t) => t case ToMonitor(_, _, t, _) => t
  }

  /** Call `i` follows at once a permission granted for its own pattern and token, which is the latest accepted. */
  predicate PermittedAt(log: seq<Action>, i: nat)
    requires i < |log| && log[i].Called?
  {
    && i >= 1 && log[i - 1].Checked? && log[i - 1].allowed
    && log[i - 1].pattern == log[i].call.pattern && log[i - 1].token == TokenOf(log[i].call)
    && TokenOf(log[i].call) == LatestAccepted(log[..i])
  }

  /** Call `i` carries no token, or one the authenticator returned just before the permission check. */
  predicate FreshTokenAt(log: seq<Action>, i: nat)
    requires i < |log| && log[i].Called?
  {
    TokenOf(log[i].call) == "" || (i >= 2 && log[i - 2].Validated? && log[i - 2].accepted == Some(TokenOf(log[i].call)))
  }

  /** Monitors are of events; requests and publishes are of everything else. */
  predicate RightVerb(c: BrokerCall) {
    match c
    case ToRequest(p, _, _) => p.httpMethod in REQUEST_VERBS
    case ToPublish(p, _, _) => p.httpMethod in REQUEST_VERBS
    case ToMonitor(_, p, _, _) => p.httpMethod in EVENT_VERBS
  }

  /** A connected event carries the token just accepted and just written to the client. */
  predicate AnnouncesEcho(log: seq<Action>, i: nat)
    requires i < |log| && log[i].Connected?
  {
    && i >= 2 && log[i - 1].Wrote? && log[i - 1].ok && log[i - 1].frame.token == log[i].token
    && log[i - 2].Validated? && log[i - 2].accepted == Some(log[i].token)
  }

  predicate AllEchoed(log: seq<Action>) {
    forall i | 0 <= i < |log| && log[i].Connected? :: AnnouncesEcho(log, i)
  }

  predicate AllPermitted(log: seq<Action>) {
    forall i | 0 <= i < |log| && log[i].Called? :: PermittedAt(log, i) && FreshTokenAt(log, i) && RightVerb(log[i].call)
  }

  function Unsubscribes(log: seq<Action>, k: nat): nat {
    if log == [] then 0 else Unsubscribes(Init(log), k) + if Last(log) == Unsubscribed(k) then 1 else 0
  }

  predicate Subscribes(a: Action) {
    a.Called? && a.call.ToMonitor? && a.call.subscribed
  }

  function Monitors(log: seq<Action>): nat {
    if log == [] then 0 else Monitors(Init(log)) + if Subscribes(Last(log)) then 1 else 0
  }

  function Connects(log: seq<Action>): nat {
    if log == [] then 0 else Connects(Init(log)) + if Last(log).Connected? then 1 else 0
  }

  /** The first accepted validation, or the length of the log. */
  function FirstAccept(log: seq<Action>): (i: nat)
    ensures i <= |log|
  {
    if log == [] then 0
    else if FirstAccept(Init(log)) < |log| - 1 then FirstAccept(Init(log))
    else if Accepts(Last(log)) then |log| - 1 else |log|
  }

  lemma {:induction false} FirstAcceptIsFirst(log: seq<Action>)
    ensures forall i | 0 <= i < FirstAccept(log) :: !Accepts(log[i])
    ensures FirstAccept(log) < |log| ==> Accepts(log[FirstAccept(log)])
    ensures FirstAccept(log) == |log| ==> LatestAccepted(log) == ""
    ensures NonEmptyTokens(log) && LatestAccepted(log) == "" ==> FirstAccept(log) == |log|
  {
    if log != [] {
      FirstAcceptIsFirst(Init(log));
    }
  }

  /** The echo of the first accepted token reached the client. */
  predicate FirstEchoed(log: seq<Action>) {
    EchoedAt(log, FirstAccept(log))
  }

  predicate EchoedAt(log: seq<Action>, i: nat) {
    i + 1 < |log| && log[i + 1].Wrote? && log[i + 1].ok
  }

  /** The log ends with an acceptance made while the session had no token. */
  predicate Opens(log: seq<Action>) {
    log != [] && Accepts(Last(log)) && LatestAccepted(Init(log)) == ""
  }

  /** The acceptances made without a token whose echo was written. */
  function Openings(log: seq<Action>): nat {
    if log == [] then 0
    else Openings(Init(log)) + if Last(log).Wrote? && Last(log).ok && Opens(Init(log)) then 1 else 0
  }

  // ---- what every step keeps ----

  predicate TokenKept(s: State) {
    s.token == LatestAccepted(s.log)
  }

  ghost predicate MonitorsKept(s: State) {
    && s.monitors == Monitors(s.log)
    && (forall k | k in s.waiting :: k < s.monitors)
    && (forall k: nat :: Unsubscribes(s.log, k) == if k < s.monitors && k !in s.waiting then 1 else 0)
    && (s.loop == Running || s.loop == Loop.Crashed ==> forall k | 0 <= k < s.monitors :: k in s.waiting)
  }

  predicate Exact(log: seq<Action>) {
    Connects(log) == Openings(log)
  }

  predicate Settled(log: seq<Action>) {
    !Opens(log)
  }

  predicate ConnectKept(s: State) {
    Exact(s.log) && (s.loop == Loop.Crashed || Settled(s.log))
  }

  ghost predicate Core(s: State) {
    TokenKept(s) && AllPermitted(s.log) && AllEchoed(s.log) && MonitorsKept(s)
  }

  ghost predicate Kept(s: State) {
    Core(s) && ConnectKept(s)
  }

  /** The calls that need something before them have it. */
  predicate Allowed(s: State, a: Action) {
    match a
    case Called(c) =>
      var log := s.log + [a];
      PermittedAt(log, |s.log|) && FreshTokenAt(log, |s.log|) && RightVerb(c)
    case Connected(_) => AnnouncesEcho(s.log + [a], |s.log|)
    case Unsubscribed(k) => k in s.waiting && (s.loop == Closing || s.loop == Closed)
    case _ => true
  }

  /** Neither a first token nor a connected event. */
  predicate Plain(s: State, a: Action) {
    !a.Connected? && (Accepts(a) ==> s.token != "")
  }

  lemma DoKeepsToken(s: State, a: Action)
    requires TokenKept(s)
    ensures TokenKept(Do(s, a))
  {
    assert Init(s.log + [a]) == s.log;
  }

  lemma DoKeepsPermitted(s: State, a: Action)
    requires AllPermitted(s.log) && Allowed(s, a)
    ensures AllPermitted(Do(s, a).log)
  {
    var log := s.log + [a];
    forall i | 0 <= i < |log| && log[i].Called?
      ensures PermittedAt(log, i) && FreshTokenAt(log, i) && RightVerb(log[i].call)
    {
      if i < |s.log| {
        assert log[..i] == s.log[..i];
        assert PermittedAt(s.log, i) && FreshTokenAt(s.log, i);
      }
    }
  }

  lemma DoKeepsEchoed(s: State, a: Action)
    requires AllEchoed(s.log) && Allowed(s, a)
    ensures AllEchoed(Do(s, a).log)
  {
    var log := s.log + [a];
    forall i | 0 <= i < |log| && log[i].Connected?
      ensures AnnouncesEcho(log, i)
    {
      assert i < |s.log| ==> AnnouncesEcho(s.log, i);
    }
  }

  lemma Appended(s: State, a: Action, k: nat)
    ensures Unsubscribes(Do(s, a).log, k) == Unsubscribes(s.log, k) + if a == Unsubscribed(k) then 1 else 0
    ensures Monitors(Do(s, a).log) == Monitors(s.log) + if Subscribes(a) then 1 else 0
    ensures Connects(Do(s, a).log) == Connects(s.log) + if a.Connected? then 1 else 0
  {
    assert Init(Do(s, a).log) == s.log && Last(Do(s, a).log) == a;
  }

  /** What an action does to the monitors, apart from the log. */
  lemma Waits(s: State, a: Action)
    ensures Subscribes(a) ==> Do(s, a).monitors == s.monitors + 1 && Do(s, a).waiting == s.waiting + {s.monitors}
    ensures a.Unsubscribed? ==> Do(s, a).monitors == s.monitors && Do(s, a).waiting == s.waiting - {a.monitor}
    ensures !Subscribes(a) && !a.Unsubscribed? ==> Do(s, a).monitors == s.monitors && Do(s, a).waiting == s.waiting
  {
  }

  lemma DoKeepsMonitors(s: State, a: Action)
    requires MonitorsKept(s) && (a.Unsubscribed? ==> a.monitor in s.waiting && (s.loop == Closing || s.loop == Closed))
    ensures MonitorsKept(Do(s, a))
  {
    var t := Do(s, a);
    Waits(s, a);
    hide Do, Subscribes, Monitors, Unsubscribes;
    Appended(s, a, 0);
    forall k: nat
      ensures Unsubscribes(t.log, k) == if k < t.monitors && k !in t.waiting then 1 else 0
    {
      Appended(s, a, k);
      assert Unsubscribes(s.log, k) == if k < s.monitors && k !in s.waiting then 1 else 0;
    }
  }

  lemma DoKeepsCore(s: State, a: Action)
    requires Core(s) && Allowed(s, a)
    ensures Core(Do(s, a))
  {
    hide TokenKept, AllPermitted, AllEchoed, MonitorsKept, PermittedAt, FreshTokenAt, AnnouncesEcho, Do;
    DoKeepsToken(s, a);
    DoKeepsPermitted(s, a);
    DoKeepsEchoed(s, a);
    DoKeepsMonitors(s, a);
  }

  lemma DoKeepsConnect(s: State, a: Action)
    requires TokenKept(s) && ConnectKept(s) && s.loop != Loop.Crashed && Plain(s, a)
    ensures ConnectKept(Do(s, a))
  {
    assert Init(s.log + [a]) == s.log && Last(s.log + [a]) == a;
    Appended(s, a, 0);
    hide Do, LatestAccepted;
  }

  lemma DoKeeps(s: State, a: Action)
    requires Kept(s) && s.loop != Loop.Crashed && Allowed(s, a) && Plain(s, a)
    ensures Kept(Do(s, a))
  {
    hide TokenKept, AllPermitted, MonitorsKept, PermittedAt, FreshTokenAt, Do, ConnectKept;
    DoKeepsCore(s, a);
    DoKeepsConnect(s, a);
  }

  lemma LoopAndIdAreFree(s: State, loop: Loop, id: string)
    requires Core(s) && (s.loop == Running || loop == Closing || loop == Closed)
    ensures Core(s.(loop := loop, id := id)) && Core(s.(id := id))
    ensures ConnectKept(s) && s.loop != Loop.Crashed ==>
        ConnectKept(s.(loop := loop, id := id)) && ConnectKept(s.(id := id))
  {
    assert MonitorsKept(s.(loop := loop, id := id)) && MonitorsKept(s.(id := id));
  }

  // ---- the handlers keep it ----

  /** The token was just returned by the authenticator, or there is none. */
  predicate JustValidated(s: State, back: nat) {
    s.token == "" || (|s.log| > back && s.log[|s.log| - 1 - back].Validated?
                      && s.log[|s.log| - 1 - back].accepted == Some(s.token))
  }

  /** The session has just been allowed to use this pattern with its token. */
  predicate JustAllowed(s: State, p: PatternData) {
    |s.log| >= 1 && Last(s.log).Checked? && Last(s.log).allowed && Last(s.log).pattern == p &&
        Last(s.log).token == s.token
  }

  lemma RevalidateKeeps(s: State, w: Answers)
    requires Kept(s) && s.loop == Running
    ensures Kept(Revalidate(s, w).0)
    ensures Revalidate(s, w).1 == Done ==> JustValidated(Revalidate(s, w).0, 0)
  {
    hide Kept;
    if s.token != "" {
      DoKeeps(s, Validated(s.token, w.accepted));
    }
  }

  lemma PermitKeeps(s: State, p: PatternData, m: Message, w: Answers)
    requires Kept(s) && s.loop == Running
    ensures Kept(Permit(s, p, m, w).0)
    ensures var (t, r) := Permit(s, p, m, w);
      JustValidated(s, 0) && r == Done ==> JustAllowed(t, p) && JustValidated(t, 1)
  {
    hide Kept;
    DoKeeps(s, Checked(p, m.data, s.token, w.allowed));
  }

  lemma AnswerKeeps(s: State, frame: Message, w: Answers, failure: Err)
    requires Kept(s) && s.loop == Running
    ensures Kept(Answer(s, frame, w, failure).0)
  {
    hide Kept;
    DoKeeps(s, Wrote(frame, w.written));
  }

  lemma CallIsAllowed(s: State, p: PatternData, m: Message, w: Answers)
    requires TokenKept(s) && JustAllowed(s, p) && JustValidated(s, 1) && p.httpMethod in VerbsFor(m.kind)
    ensures Allowed(s, Called(CallFor(s, p, m, w)))
  {
    var a := Called(CallFor(s, p, m, w));
    var log := s.log + [a];
    assert TokenOf(a.call) == s.token && a.call.pattern == p;
    assert log[..|s.log|] == s.log;
    assert RightVerb(a.call);
    hide CallFor, LatestAccepted;
  }

  lemma PerformKeeps(s: State, p: PatternData, m: Message, w: Answers)
    requires Kept(s) && s.loop == Running && JustAllowed(s, p) && JustValidated(s, 1)
    requires p.httpMethod in VerbsFor(m.kind)
    ensures Kept(Perform(s, p, m, w).0)
  {
    CallIsAllowed(s, p, m, w);
    hide Kept, Answer, ResponseTo, CallFor, CallError, Allowed, Do;
    var a := Called(CallFor(s, p, m, w));
    DoKeeps(s, a);
    AnswerKeeps(Do(s, a), ResponseTo(m, w), w, WRITE_FAILED);
  }

  /** What the lookup returns is one of the listed patterns, with parameters and query of its own. */
  lemma {:induction false} LookupFinds(patterns: seq<PatternData>, endpoint: string)
    ensures var r := Lookup(patterns, endpoint);
      r.Some? ==> exists p :: p in patterns && r.value == p.(params := r.value.params, query := r.value.query)
  {
    hide MatchesPattern, Collect, EndpointParts, QueryOf;
    if patterns != [] && !MatchesPattern(patterns[0], endpoint) {
      LookupFinds(patterns[1..], endpoint);
    }
  }

  lemma FoundHasVerb(handlers: seq<PatternData>, verbs: set<string>, endpoint: string)
    ensures var r := Lookup(Having(handlers, verbs), endpoint);
      r.Some? ==> r.value.httpMethod in verbs
  {
    hide Lookup;
    LookupFinds(Having(handlers, verbs), endpoint);
  }

  lemma AddressKeeps(s: State, handlers: seq<PatternData>, m: Message, w: Answers)
    requires Kept(s) && s.loop == Running
    ensures Kept(Address(s, handlers, m, w).0)
  {
    hide Kept, Revalidate, Permit, Perform, JustAllowed, JustValidated, Lookup, Having, SpecificEndpoint,
        ServiceUnavailable, VerbsFor;
    RevalidateKeeps(s, w);
    FoundHasVerb(handlers, VerbsFor(m.kind), SpecificEndpoint(m));
    var t := Revalidate(s, w).0;
    match Lookup(Having(handlers, VerbsFor(m.kind)), SpecificEndpoint(m))
    case None =>
    case Some(p) =>
      PermitKeeps(t, p, m, w);
      if Revalidate(s, w).1 == Done && Permit(t, p, m, w).1 == Done {
        PerformKeeps(Permit(t, p, m, w).0, p, m, w);
      }
  }

  /** A token message of a session that has a token. */
  lemma RenewKeeps(s: State, m: Message, w: Answers)
    requires Kept(s) && s.loop == Running && (s.token != "" || w.accepted == None)
    ensures Kept(Authenticate(s, m, w).0)
  {
    hide Core, ConnectKept, Answer, Do;
    var t := Do(s, Validated(m.token, w.accepted));
    DoKeeps(s, Validated(m.token, w.accepted));
    if w.accepted.Some? {
      LoopAndIdAreFree(t, Running, m.id);
      var u, frame := t.(id := m.id), m.(token := w.accepted.value);
      AnswerKeeps(u, frame, w, WRITE_FAILED);
    }
  }

  lemma TokenAfterEcho(s: State, m: Message, token: string, frame: Message)
    ensures Do(Do(s, Validated(m.token, Some(token))).(id := m.id), Wrote(frame, true)).token == token
  {
  }

  /** The first token: its echo, and the connected event if the echo was written. */
  lemma FirstTokenCore(s: State, m: Message, w: Answers)
    requires Core(s) && s.loop == Running && s.token == "" && w.accepted.Some?
    ensures Core(Authenticate(s, m, w).0)
  {
    hide Core, Do;
    var t := Do(s, Validated(m.token, w.accepted));
    DoKeepsCore(s, Validated(m.token, w.accepted));
    LoopAndIdAreFree(t, Running, m.id);
    var u, frame := t.(id := m.id), m.(token := w.accepted.value);
    DoKeepsCore(u, Wrote(frame, w.written));
    if w.written {
      var v := Do(u, Wrote(frame, true));
      assert v.token == w.accepted.value by { TokenAfterEcho(s, m, w.accepted.value, frame); }
      assert AnnouncesEcho(v.log + [Connected(v.token)], |v.log|);
      DoKeepsCore(v, Connected(v.token));
    }
  }

  lemma OneLonger(log: seq<Action>, a: Action)
    ensures Init(log + [a]) == log && Last(log + [a]) == a
    ensures Connects(log + [a]) == Connects(log) + if a.Connected? then 1 else 0
    ensures Openings(log + [a]) == Openings(log) + if a.Wrote? && a.ok && Opens(log) then 1 else 0
    ensures Opens(log + [a]) <==> Accepts(a) && LatestAccepted(log) == ""
  {
    assert Init(log + [a]) == log;
  }

  /** A session without a token, then an acceptance, its echo and the connected event. */
  lemma FirstTokenLog(log: seq<Action>, accept: Action, echo: Action, announce: Action)
    requires Exact(log) && Settled(log) && LatestAccepted(log) == ""
    requires Accepts(accept) && echo.Wrote? && announce.Connected?
    ensures Exact(log + [accept])
    ensures Exact(log + [accept] + [echo]) <==> !echo.ok
    ensures Settled(log + [accept] + [echo])
    ensures echo.ok ==> Exact(log + [accept] + [echo] + [announce]) && Settled(log + [accept] + [echo] + [announce])
  {
    OneLonger(log, accept);
    OneLonger(log + [accept], echo);
    OneLonger(log + [accept] + [echo], announce);
    hide Connects, Openings, Opens, LatestAccepted;
  }

  lemma PrefixNonEmpty(log: seq<Action>, longer: seq<Action>)
    requires log <= longer && NonEmptyTokens(longer)
    ensures NonEmptyTokens(log)
  {
    assert forall i | 0 <= i < |log| :: log[i] == longer[i];
  }

  lemma KeptBoth(s: State)
    requires Kept(s) && s.loop == Running
    ensures s.token == LatestAccepted(s.log) && Exact(s.log) && Settled(s.log)
  {
    hide AllPermitted, AllEchoed, MonitorsKept, LatestAccepted, Exact, Settled;
  }

  lemma FirstTokenConnects(s: State, m: Message, w: Answers)
    requires Kept(s) && s.loop == Running && s.token == "" && w.accepted.Some?
    ensures var (t, r) := Authenticate(s, m, w);
      Exact(t.log) && (r == Panicked || Settled(t.log))
  {
    KeptBoth(s);
    hide Kept, Core, ConnectKept, Exact, Settled, LatestAccepted, Do;
    var accept, echo := Validated(m.token, w.accepted), Wrote(m.(token := w.accepted.value), w.written);
    var u := Do(Do(s, accept).(id := m.id), echo);
    FirstTokenLog(s.log, accept, echo, Connected(u.token));
  }

  lemma AuthenticateKeeps(s: State, m: Message, w: Answers)
    requires Kept(s) && s.loop == Running
    ensures var (t, r) := Authenticate(s, m, w);
      Core(t) && Exact(t.log) && (r != Panicked ==> Kept(t))
  {
    hide Core, Do, Answer, Exact, Settled;
    if s.token != "" || w.accepted == None {
      RenewKeeps(s, m, w);
    } else {
      FirstTokenCore(s, m, w);
      FirstTokenConnects(s, m, w);
    }
  }

  lemma HandleKeeps(s: State, handlers: seq<PatternData>, m: Message, w: Answers)
    requires Kept(s) && s.loop == Running
    ensures var (t, r) := Handle(s, handlers, m, w);
      Core(t) && Exact(t.log) && (r != Panicked ==> Kept(t))
  {
    hide Address, Authenticate, Answer, Core, Exact, Settled;
    AddressKeeps(s, handlers, m, w);
    AuthenticateKeeps(s, m, w);
    AnswerKeeps(s, m, w, INTERNAL_ERROR);
  }

  lemma ReceivedKeeps(s: State, handlers: seq<PatternData>, m: Message, w: Answers)
    requires Kept(s) && s.loop == Running
    ensures Kept(Step(s, handlers, Received(m, w)))
  {
    HandleKeeps(s, handlers, m, w);
    var (t, r) := Handle(s, handlers, m, w);
    hide Handle, Core, Exact, Settled, Do;
    match r
    case Done =>
    case Failed(e) => DoKeeps(t, Wrote(ErrorFrame(m, e), w.errorWritten));
    case Panicked => LoopAndIdAreFree(t, Loop.Crashed, t.id);
  }

  lemma StepKeeps(s: State, handlers: seq<PatternData>, e: SessionEvent)
    requires Kept(s) && Enabled(s, e)
    ensures Kept(Step(s, handlers, e))
  {
    match e
    case Received(m, w) => ReceivedKeeps(s, handlers, m, w);
    case ReadFailed(m, message, ok) =>
      hide Kept, Do;
      DoKeeps(s, Wrote(ErrorFrame(m, InternalError(message)), ok));
    case ReadPanics =>
      hide Core, ConnectKept;
      LoopAndIdAreFree(s, Loop.Crashed, s.id);
    case CloseFrame =>
      hide Core, ConnectKept, Do;
      DoKeeps(s, Cancelled);
      LoopAndIdAreFree(Do(s, Cancelled), Closing, s.id);
    case PublishesDisconnect =>
      hide Core, ConnectKept, Do;
      DoKeeps(s, Disconnected(s.id, s.token));
      LoopAndIdAreFree(Do(s, Disconnected(s.id, s.token)), Closed, s.id);
    case WaiterRuns(k) =>
      hide Kept, Do;
      DoKeeps(s, Unsubscribed(k));
  }

  /** Every state of every run is in order. */
  lemma {:induction false} RunKeeps(handlers: seq<PatternData>, run: seq<State>, events: seq<SessionEvent>, n: nat)
    requires IsRun(handlers, run, events) && n < |run|
    ensures Kept(run[n])
  {
    hide Step, Enabled, Kept;
    if n == 0 {
      OpenedIsKept(run[0].id);
    } else {
      RunKeeps(handlers, run, events, n - 1);
      assert Moves(run[n - 1], handlers, events[n - 1], run[n]);
      StepKeeps(run[n - 1], handlers, events[n - 1]);
    }
  }

  lemma OpenedIsKept(id: string)
    ensures Kept(Opened(id))
  {
  }

  // ---- what holds of every run ----

  /** The session token is the latest one the authenticator accepted, and set as soon as one was. */
  lemma {:induction false} TokenIsLatestAccepted(handlers: seq<PatternData>, run: seq<State>,
                                                 events: seq<SessionEvent>, n: nat)
    requires IsRun(handlers, run, events) && n < |run|
    ensures run[n].token == LatestAccepted(run[n].log)
    ensures NonEmptyTokens(run[n].log) ==>
      (run[n].token != "" <==> exists i :: 0 <= i < |run[n].log| && Accepts(run[n].log[i]))
  {
    hide IsRun;
    RunKeeps(handlers, run, events, n);
    FirstAcceptIsFirst(run[n].log);
  }

  lemma StepExtends(s: State, handlers: seq<PatternData>, e: SessionEvent)
    ensures s.log <= Step(s, handlers, e).log
  {
    hide Handle, Do;
  }

  /** The log only grows. */
  lemma {:induction false} RunExtends(handlers: seq<PatternData>, run: seq<State>, events: seq<SessionEvent>, m: nat,
                                      n: nat)
    requires IsRun(handlers, run, events) && m <= n < |run|
    ensures run[m].log <= run[n].log
  {
    hide Step, Enabled;
    if m < n {
      RunExtends(handlers, run, events, m, n - 1);
      assert Moves(run[n - 1], handlers, events[n - 1], run[n]);
      StepExtends(run[n - 1], handlers, events[n - 1]);
    }
  }

  /** Once set, the session token is never empty again. */
  lemma {:induction false} TokenStaysSet(handlers: seq<PatternData>, run: seq<State>, events: seq<SessionEvent>,
                                         m: nat, n: nat)
    requires IsRun(handlers, run, events) && m <= n < |run| && NonEmptyTokens(run[n].log)
    requires run[m].token != ""
    ensures run[n].token != ""
  {
    hide IsRun, NonEmptyTokens;
    RunExtends(handlers, run, events, m, n);
    PrefixNonEmpty(run[m].log, run[n].log);
    TokenIsLatestAccepted(handlers, run, events, m);
    TokenIsLatestAccepted(handlers, run, events, n);
    var i :| 0 <= i < |run[m].log| && Accepts(run[m].log[i]);
    assert run[n].log[i] == run[m].log[i];
  }

  /** With non-empty tokens only the first acceptance meets a session without a token. */
  lemma {:induction false} OneOpening(log: seq<Action>)
    requires NonEmptyTokens(log)
    ensures Openings(log) == if FirstEchoed(log) then 1 else 0
  {
    hide FirstEchoed, Openings, Opens, FirstAccept, LatestAccepted, Accepts, NonEmptyTokens;
    EmptyLog();
    if log != [] {
      var before := Init(log);
      assert log == before + [Last(log)];
      PrefixNonEmpty(before, log);
      OneOpening(before);
      if before == [] {
        OneLonger([], Last(log));
        EchoStep([], Last(log));
      } else {
        PrefixNonEmpty(Init(before), log);
        FirstAcceptIsFirst(Init(before));
        OneOpeningStep(before, Last(log));
      }
    }
  }

  lemma EmptyLog()
    ensures Openings([]) == 0 && !FirstEchoed([]) && !Opens([]) && FirstAccept([]) == 0
  {
  }

  lemma OpensIsFirst(log: seq<Action>)
    requires log != [] && (FirstAccept(Init(log)) == |log| - 1 <==> LatestAccepted(Init(log)) == "")
    ensures Opens(log) <==> FirstAccept(log) == |log| - 1
  {
    hide LatestAccepted;
  }

  lemma FirstAcceptLonger(log: seq<Action>, a: Action)
    ensures FirstAccept(log) < |log| ==> FirstAccept(log + [a]) == FirstAccept(log)
    ensures FirstAccept(log) == |log| ==> FirstAccept(log + [a]) >= |log|
  {
    assert Init(log + [a]) == log;
  }

  lemma EchoedLonger(log: seq<Action>, a: Action, i: nat)
    ensures i + 1 < |log| ==> (EchoedAt(log + [a], i) <==> EchoedAt(log, i))
    ensures i + 1 == |log| ==> !EchoedAt(log, i) && (EchoedAt(log + [a], i) <==> a.Wrote? && a.ok)
    ensures i >= |log| ==> !EchoedAt(log, i) && !EchoedAt(log + [a], i)
  {
  }

  /** Whether one more action echoes the first acceptance. */
  lemma EchoStep(log: seq<Action>, a: Action)
    ensures FirstAccept(log) + 1 < |log| ==> (FirstEchoed(log + [a]) <==> FirstEchoed(log))
    ensures FirstAccept(log) + 1 == |log| ==> !FirstEchoed(log) && (FirstEchoed(log + [a]) <==> a.Wrote? && a.ok)
    ensures FirstAccept(log) == |log| ==> !FirstEchoed(log) && !FirstEchoed(log + [a])
  {
    FirstAcceptLonger(log, a);
    EchoedLonger(log, a, FirstAccept(log));
    EchoedLonger(log, a, FirstAccept(log + [a]));
    hide FirstAccept, EchoedAt, Accepts;
  }

  lemma OneOpeningStep(log: seq<Action>, a: Action)
    requires log != []
    requires Openings(log) == if FirstEchoed(log) then 1 else 0
    requires FirstAccept(Init(log)) == |log| - 1 <==> LatestAccepted(Init(log)) == ""
    ensures Openings(log + [a]) == if FirstEchoed(log + [a]) then 1 else 0
  {
    OpensIsFirst(log);
    EchoStep(log, a);
    OneLonger(log, a);
    hide FirstEchoed, Openings, Opens, FirstAccept, LatestAccepted, Accepts;
  }

  /**
   The connected event is published exactly as often as a token accepted while the session
   had none is echoed, and carries that token.
   */
  lemma {:induction false} ConnectedPerOpening(handlers: seq<PatternData>, run: seq<State>,
                                               events: seq<SessionEvent>, n: nat)
    requires IsRun(handlers, run, events) && n < |run|
    ensures Connects(run[n].log) == Openings(run[n].log)
    ensures AllEchoed(run[n].log)
  {
    hide IsRun;
    RunKeeps(handlers, run, events, n);
  }

  /** With non-empty tokens that is at most once: exactly when the echo of the first accepted token was written. */
  lemma {:induction false} ConnectedAtMostOnce(handlers: seq<PatternData>, run: seq<State>,
                                               events: seq<SessionEvent>, n: nat)
    requires IsRun(handlers, run, events) && n < |run| && NonEmptyTokens(run[n].log)
    ensures Connects(run[n].log) <= 1
    ensures Connects(run[n].log) == 1 <==> FirstEchoed(run[n].log)
  {
    hide IsRun;
    ConnectedPerOpening(handlers, run, events, n);
    OneOpening(run[n].log);
  }

  // ---- answers to the client ----

  function Frames(log: seq<Action>): nat {
    if log == [] then 0 else Frames(Init(log)) + if Last(log).Wrote? then 1 else 0
  }

  /** The frames of `log` from `start` on answer the message `id`. */
  predicate AnswersOnly(log: seq<Action>, start: nat, id: string) {
    forall i | start <= i < |log| && log[i].Wrote? :: log[i].frame.id == id
  }

  lemma OneMore(log: seq<Action>, a: Action, start: nat, id: string)
    requires AnswersOnly(log, start, id) && (a.Wrote? ==> a.frame.id == id)
    ensures AnswersOnly(log + [a], start, id)
    ensures Frames(log + [a]) == Frames(log) + if a.Wrote? then 1 else 0
  {
    assert Init(log + [a]) == log;
  }

  lemma PerformAnswers(s: State, p: PatternData, m: Message, w: Answers, start: nat)
    requires w.panics == None && w.written && AnswersOnly(s.log, start, m.id)
    ensures var (t, r) := Perform(s, p, m, w);
      && r != Panicked && AnswersOnly(t.log, start, m.id)
      && Frames(t.log) == Frames(s.log) + if r == Done && m.kind != Publishing then 1 else 0
  {
    hide Frames, AnswersOnly, CallFor, CallError;
    var t := Do(s, Called(CallFor(s, p, m, w)));
    OneMore(s.log, Called(CallFor(s, p, m, w)), start, m.id);
    OneMore(t.log, Wrote(ResponseTo(m, w), true), start, m.id);
  }

  lemma AddressAnswers(s: State, handlers: seq<PatternData>, m: Message, w: Answers, start: nat)
    requires w.panics == None && w.written && AnswersOnly(s.log, start, m.id)
    ensures var (t, r) := Address(s, handlers, m, w);
      && r != Panicked && AnswersOnly(t.log, start, m.id)
      && Frames(t.log) == Frames(s.log) + if r == Done && m.kind != Publishing then 1 else 0
  {
    hide Frames, AnswersOnly, Perform, Lookup, Having, SpecificEndpoint, ServiceUnavailable;
    var t := Revalidate(s, w).0;
    OneMore(s.log, Validated(s.token, w.accepted), start, m.id);
    match Lookup(Having(handlers, VerbsFor(m.kind)), SpecificEndpoint(m))
    case None =>
    case Some(p) =>
      OneMore(t.log, Checked(p, m.data, t.token, w.allowed), start, m.id);
      PerformAnswers(Permit(t, p, m, w).0, p, m, w, start);
  }

  lemma AuthenticateAnswers(s: State, m: Message, w: Answers, start: nat)
    requires w.panics == None && w.written && AnswersOnly(s.log, start, m.id)
    ensures var (t, r) := Authenticate(s, m, w);
      && r != Panicked && AnswersOnly(t.log, start, m.id)
      && Frames(t.log) == Frames(s.log) + if r == Done then 1 else 0
  {
    hide Frames, AnswersOnly;
    var one := s.log + [Validated(m.token, w.accepted)];
    OneMore(s.log, Validated(m.token, w.accepted), start, m.id);
    if w.accepted.Some? {
      var echo := Wrote(m.(token := w.accepted.value), true);
      OneMore(one, echo, start, m.id);
      OneMore(one + [echo], Connected(w.accepted.value), start, m.id);
    }
  }

  /** Message types the session does not handle. */
  predicate Ignored(kind: MessageKind) {
    kind.Response? || kind.Subscribe? || kind.Unsubscribe? || kind.Error? || kind.Unknown?
  }

  lemma HandleAnswers(s: State, handlers: seq<PatternData>, m: Message, w: Answers)
    requires w.panics == None && w.written
    ensures var (t, r) := Handle(s, handlers, m, w);
      && r != Panicked && AnswersOnly(t.log, |s.log|, m.id)
      && Frames(t.log) == Frames(s.log) + if r == Done && m.kind != Publishing && !Ignored(m.kind) then 1 else 0
  {
    assert AnswersOnly(s.log, |s.log|, m.id);
    hide Frames, AnswersOnly, Address, Authenticate;
    match m.kind
    case Token => AuthenticateAnswers(s, m, w, |s.log|);
    case KeepAlive => OneMore(s.log, Wrote(m, true), |s.log|, m.id);
    case Request => AddressAnswers(s, handlers, m, w, |s.log|);
    case Publishing => AddressAnswers(s, handlers, m, w, |s.log|);
    case Monitor => AddressAnswers(s, handlers, m, w, |s.log|);
    case _ =>
  }

  /**
   When nothing panics and the socket takes what is written, every message is answered by
   exactly one frame with its own id, a response or an error; only accepted publishes and
   message types that are not handled get none.
   */
  lemma {:induction false} AnsweredOnce(s: State, handlers: seq<PatternData>, m: Message, w: Answers)
    requires w.panics == None && w.written
    ensures var t := Step(s, handlers, Received(m, w));
      && AnswersOnly(t.log, |s.log|, m.id)
      && Frames(t.log) == Frames(s.log) +
          if Ignored(m.kind) || (m.kind == Publishing && Handle(s, handlers, m, w).1 == Done) then 0 else 1
  {
    HandleAnswers(s, handlers, m, w);
    hide Frames, AnswersOnly, Handle;
    var (t, r) := Handle(s, handlers, m, w);
    if r.Failed? {
      OneMore(t.log, Wrote(ErrorFrame(m, r.err), w.errorWritten), |s.log|, m.id);
    }
  }

  /** An authenticator that accepts with an empty token makes every token message announce the session again. */
  lemma EmptyTokensReconnect(id: string, handlers: seq<PatternData>, m: Message, w: Answers)
    requires m.kind == Token && m.token != "" && w.accepted == Some("") && w.written && w.panics == None
    ensures var s := Step(Opened(id), handlers, Received(m, w));
      Connects(s.log) == 1 && s.token == "" && s.loop == Running
      && Connects(Step(s, handlers, Received(m, w)).log) == 2
  {
    var s := Opened(id);
    var a, b, c := Validated(m.token, Some("")), Wrote(m.(token := ""), true), Connected("");
    EmptyTokenStep(s, handlers, m, w);
    var t := Step(s, handlers, Received(m, w));
    EmptyTokenStep(t, handlers, m, w);
    ThreeMore(s.log, a, b, c);
    ThreeMore(t.log, a, b, c);
  }

  lemma EmptyTokenStep(s: State, handlers: seq<PatternData>, m: Message, w: Answers)
    requires m.kind == Token && m.token != "" && w.accepted == Some("") && w.written && w.panics == None
    requires s.token == "" && s.loop == Running
    ensures var t := Step(s, handlers, Received(m, w));
      && t.token == "" && t.loop == Running
      && t.log == s.log + [Validated(m.token, Some(""))] + [Wrote(m.(token := ""), true)] + [Connected("")]
  {
  }

  lemma ThreeMore(log: seq<Action>, a: Action, b: Action, c: Action)
    requires a.Validated? && b.Wrote? && c.Connected?
    ensures Connects(log + [a] + [b] + [c]) == Connects(log) + 1
  {
    var one := log + [a];
    var two := one + [b];
    var three := two + [c];
    assert Init(one) == log && Init(two) == one && Init(three) == two;
    assert Connects(one) == Connects(log) && Connects(two) == Connects(one);
  }

  /**
   Every Request, Publish and Monitor a client causes comes right after a permission check on
   the same pattern and token that said yes; that token is the session's latest, and was
   accepted by the authenticator in the step before, unless the session has none.
   */
  lemma {:induction false} CallsArePermitted(handlers: seq<PatternData>, run: seq<State>, events: seq<SessionEvent>,
                                             n: nat, i: nat)
    requires IsRun(handlers, run, events) && n < |run|
    requires i < |run[n].log| && run[n].log[i].Called?
    ensures PermittedAt(run[n].log, i) && FreshTokenAt(run[n].log, i) && RightVerb(run[n].log[i].call)
  {
    hide IsRun, PermittedAt, FreshTokenAt, RightVerb;
    RunKeeps(handlers, run, events, n);
  }

  // ---- monitors and the end of a session ----

  /** Nothing more can happen: the loop has ended and no goroutine can be woken. */
  ghost predicate Finished(s: State) {
    forall e :: !Enabled(s, e)
  }

  /**
   In a finished session every successful monitor has been unsubscribed exactly once if the
   loop ended on a close frame, and none ever if it ended on a panic.
   */
  lemma MonitorsReleasedIffClosed(handlers: seq<PatternData>, run: seq<State>, events: seq<SessionEvent>, n: nat,
                                  k: nat)
    requires IsRun(handlers, run, events) && n < |run| && Finished(run[n])
    requires k < Monitors(run[n].log)
    ensures run[n].loop == Closed <==> Unsubscribes(run[n].log, k) == 1
    ensures run[n].loop == Loop.Crashed <==> Unsubscribes(run[n].log, k) == 0
  {
    hide IsRun;
    RunKeeps(handlers, run, events, n);
    var s := run[n];
    assert !Enabled(s, CloseFrame) && !Enabled(s, PublishesDisconnect) && !Enabled(s, WaiterRuns(k));
  }

  /** While the session is open nothing is unsubscribed, and never anything twice or that was not monitored. */
  lemma UnsubscribesAreJustified(handlers: seq<PatternData>, run: seq<State>, events: seq<SessionEvent>, n: nat, k: nat)
    requires IsRun(handlers, run, events) && n < |run|
    ensures Unsubscribes(run[n].log, k) <= 1
    ensures Unsubscribes(run[n].log, k) == 1 ==>
        k < Monitors(run[n].log) && (run[n].loop == Closing || run[n].loop == Closed)
  {
    hide IsRun;
    RunKeeps(handlers, run, events, n);
  }

  /** A run goes on with any enabled event. */
  lemma RunMore(handlers: seq<PatternData>, run: seq<State>, events: seq<SessionEvent>, e: SessionEvent)
    requires IsRun(handlers, run, events) && Enabled(run[|run| - 1], e)
    ensures IsRun(handlers, run + [Step(run[|run| - 1], handlers, e)], events + [e])
  {
    hide Step, Enabled;
    var longer, more := run + [Step(run[|run| - 1], handlers, e)], events + [e];
    forall i | 0 <= i < |more|
      ensures Moves(longer[i], handlers, more[i], longer[i + 1])
    {
      assert i < |events| ==> more[i] == events[i] && Moves(run[i], handlers, events[i], run[i + 1]);
    }
  }

  /** A closed session can always finish: waking the goroutines in any order works, here one order. */
  lemma {:induction false} WaitersCanFinish(handlers: seq<PatternData>, run: seq<State>, events: seq<SessionEvent>)
    returns (longer: seq<State>, more: seq<SessionEvent>)
    requires IsRun(handlers, run, events) && run[|run| - 1].loop == Closed
    ensures run <= longer && events <= more && IsRun(handlers, longer, more)
    ensures longer[|longer| - 1].loop == Closed && longer[|longer| - 1].waiting == {}
    decreases |run[|run| - 1].waiting|
  {
    var s := run[|run| - 1];
    hide IsRun;
    if s.waiting == {} {
      longer, more := run, events;
    } else {
      var k :| k in s.waiting;
      RunMore(handlers, run, events, WaiterRuns(k));
      longer, more := WaitersCanFinish(handlers, run + [Step(s, handlers, WaiterRuns(k))], events + [WaiterRuns(k)]);
    }
  }

  // ---- the connection object ----

  /** `wsConnection` with the message loop and the handlers; the log records the outside calls. */
  class Connection {
    const handlers: seq<PatternData>
    var token: string
    var id: string
    var loop: Loop
    var monitors: nat
    var waiting: set<nat>
    var log: seq<Action>

    function Now(): State
      reads this
    {
      State(token, id, loop, monitors, waiting, log)
    }

    constructor (id_: string, patterns: seq<PatternData>)
      ensures Now() == Opened(id_) && handlers == patterns
    {
      handlers := patterns;
      token, id, loop, monitors, waiting, log := "", id_, Running, 0, {}, [];
    }

    /** `GetHandlers` and `GetEvents`: a filter loop over the registered patterns. */
    method GetPatterns(verbs: set<string>) returns (r: seq<PatternData>)
      ensures r == Having(handlers, verbs)
    {
      r := [];
      hide Having;
      HavingNone(handlers[|handlers|..], verbs);
      for i := 0 to |handlers|
        invariant r + Having(handlers[i..], verbs) == Having(handlers, verbs)
      {
        HavingNext(handlers, i, verbs);
        Regroup(r, [handlers[i]], Having(handlers[i + 1..], verbs));
        if handlers[i].httpMethod in verbs {
          r := r + [handlers[i]];
        }
      }
    }

    method RevalidateToken(w: Answers) returns (r: Result)
      modifies this
      ensures (Now(), r) == Revalidate(old(Now()), w)
    {
      if |token| != 0 {
        if w.panics == Some(Validating) {
          return Panicked;
        }
        log := log + [Validated(token, w.accepted)];
        if w.accepted == None {
          return Failed(UNAUTHORIZED);
        }
        token := w.accepted.value;
      }
      r := Done;
    }

    method WriteJSON(frame: Message, w: Answers, failure: Err) returns (r: Result)
      modifies this
      ensures (Now(), r) == Answer(old(Now()), frame, w, failure)
    {
      if w.panics == Some(Writing) {
        return Panicked;
      }
      log := log + [Wrote(frame, w.written)];
      r := if w.written then Done else Failed(failure);
    }

    method HasPermission(p: PatternData, m: Message, w: Answers) returns (r: Result)
      modifies this
      ensures (Now(), r) == Permit(old(Now()), p, m, w)
    {
      if w.panics == Some(Permitting) {
        return Panicked;
      }
      log := log + [Checked(p, m.data, token, w.allowed)];
      r := if w.allowed then Done else Failed(FORBIDDEN);
    }

    /** The broker call of an admitted message; a successful monitor leaves a goroutine waiting for the context. */
    method CallBroker(p: PatternData, m: Message, w: Answers) returns (r: Result)
      requires m.kind == Request || m.kind == Publishing || m.kind == Monitor
      modifies this
      ensures (Now(), r) == Perform(old(Now()), p, m, w)
    {
      if w.panics == Some(Calling) {
        return Panicked;
      }
      if m.kind == Request {
        log := log + [Called(ToRequest(p, m.data, token))];
      } else if m.kind == Publishing {
        log := log + [Called(ToPublish(p, m.data, token))];
      } else {
        log := log + [Called(ToMonitor(id, p, token, w.broker == None))];
        if w.broker == None {
          waiting, monitors := waiting + {monitors}, monitors + 1;
        }
      }
      assert Now() == Do(old(Now()), Called(CallFor(old(Now()), p, m, w)));
      if w.broker.Some? {
        return Failed(CallError(m, w.broker.value));
      }
      if m.kind == Publishing {
        return Done;
      }
      r := WriteJSON(ResponseTo(m, w), w, WRITE_FAILED);
    }

    method HandleAddressed(m: Message, w: Answers) returns (r: Result)
      requires m.kind == Request || m.kind == Publishing || m.kind == Monitor
      modifies this
      ensures (Now(), r) == Address(old(Now()), handlers, m, w)
    {
      hide Revalidate, Permit, Perform, Lookup, Having, SpecificEndpoint, ServiceUnavailable;
      r := RevalidateToken(w);
      if r != Done {
        return;
      }
      var patterns := GetPatterns(VerbsFor(m.kind));
      var p := Lookup(patterns, SpecificEndpoint(m));
      if p == None {
        return Failed(ServiceUnavailable(SpecificEndpoint(m)));
      }
      r := HasPermission(p.value, m, w);
      if r != Done {
        return;
      }
      r := CallBroker(p.value, m, w);
    }

    method HandleToken(m: Message, w: Answers) returns (r: Result)
      modifies this
      ensures (Now(), r) == Authenticate(old(Now()), m, w)
    {
      if |m.token| == 0 {
        return Failed(INVALID_PARAMS);
      }
      if w.panics == Some(Validating) {
        return Panicked;
      }
      log := log + [Validated(m.token, w.accepted)];
      if w.accepted == None {
        return Failed(UNAUTHORIZED);
      }
      var publish := token == "";
      token := w.accepted.value;
      id := m.id;
      assert Now() == Do(old(Now()), Validated(m.token, w.accepted)).(id := m.id);
      hide Answer;
      r := WriteJSON(m.(token := w.accepted.value), w, WRITE_FAILED);
      if r == Done && publish {
        log := log + [Connected(token)];
      }
    }

    method HandleMessage(m: Message, w: Answers) returns (r: Result)
      modifies this
      ensures (Now(), r) == Handle(old(Now()), handlers, m, w)
    {
      hide Address, Authenticate, Answer;
      match m.kind {
        case Token => r := HandleToken(m, w);
        case KeepAlive => r := WriteJSON(m, w, INTERNAL_ERROR);
        case Request => r := HandleAddressed(m, w);
        case Publishing => r := HandleAddressed(m, w);
        case Monitor => r := HandleAddressed(m, w);
        case _ => r := Done;
      }
    }

    /**
     `wsHandler`: one frame after another until a close frame, a panic or the last frame to read.
     The error of a frame is written when the loop comes round, before the next read.
     */
    method WsHandler(frames: seq<SessionEvent>) returns (read: nat, ghost run: seq<State>)
      requires forall i | 0 <= i < |frames| :: IsFrame(frames[i])
      requires Now() == Opened(id)
      modifies this
      ensures read <= |frames| && (read == |frames| || loop != Running)
      ensures IsRun(handlers, run, EventsOf(frames[..read])) && run[0].id == old(id)
      ensures Now() == run[|run| - 1]
    {
      hide Step, Do, IsRun;
      var errorMsg, errorWritten := None, false;
      read, run := 0, [Now()];
      StartOfRun(handlers, Now(), frames[..0]);
      while true
        invariant read <= |frames| && loop == Running
        invariant forall i | 0 <= i < read :: frames[i] != CloseFrame
        invariant IsRun(handlers, run, frames[..read]) && run != [] && run[0].id == old(id)
        invariant Flushed(Now(), errorMsg, errorWritten) == run[|run| - 1]
        decreases |frames| - read
      {
        if errorMsg.Some? {
          Write(errorMsg.value, errorWritten);
          errorMsg := None;
        }
        ghost var s := Now();
        assert s == run[|run| - 1];
        if read == |frames| {
          NoClose(frames, read);
          return;
        }
        RunMore(handlers, run, frames[..read], frames[read]);
        run := run + [Step(s, handlers, frames[read])];
        assert frames[..read] + [frames[read]] == frames[..read + 1];
        read := read + 1;
        if frames[read - 1] == CloseFrame {
          StepOfClose(s, handlers);
          CancelContext();
          RunMore(handlers, run, frames[..read], PublishesDisconnect);
          run := run + [Step(Now(), handlers, PublishesDisconnect)];
          PublishDisconnected();
          return;
        }
        errorMsg, errorWritten := HandleFrame(frames[read - 1]);
        if loop != Running {
          NoClose(frames, read);
          return;
        }
      }
    }

    /** One frame that does not end the session by itself, and the error frame it leaves to be written. */
    method HandleFrame(frame: SessionEvent) returns (errorMsg: Option<Message>, errorWritten: bool)
      requires loop == Running && (frame.Received? || frame.ReadFailed? || frame.ReadPanics?)
      modifies this
      ensures Flushed(Now(), errorMsg, errorWritten) == Step(old(Now()), handlers, frame)
      ensures loop != Running ==> errorMsg == None
    {
      hide Step, Handle, Do;
      errorMsg, errorWritten := None, false;
      match frame {
        case ReadFailed(m, message, ok) =>
          StepOfReadFailed(Now(), handlers, m, message, ok);
          errorMsg, errorWritten := Some(ErrorFrame(m, InternalError(message))), ok;
        case ReadPanics =>
          StepOfReadPanics(Now(), handlers);
          loop := Loop.Crashed;
        case Received(m, w) =>
          StepOfReceived(Now(), handlers, m, w);
          var r := HandleMessage(m, w);
          if r == Panicked {
            loop := Loop.Crashed;
          } else if r.Failed? {
            errorMsg, errorWritten := Some(ErrorFrame(m, r.err)), w.errorWritten;
          }
      }
    }

    method Write(frame: Message, ok: bool)
      modifies this
      ensures Now() == Do(old(Now()), Wrote(frame, ok))
    {
      log := log + [Wrote(frame, ok)];
    }

    method CancelContext()
      modifies this
      ensures Now() == Do(old(Now()), Cancelled).(loop := Closing)
    {
      log := log + [Cancelled];
      loop := Closing;
    }

    method PublishDisconnected()
      requires loop == Closing
      modifies this
      ensures loop == Closed && Now() == Step(old(Now()), handlers, PublishesDisconnect)
    {
      log := log + [Disconnected(id, token)];
      loop := Closed;
    }

    /** The goroutine a monitor left behind, woken by the cancelled context. */
    method RunWaiter(k: nat)
      requires Enabled(Now(), WaiterRuns(k))
      modifies this
      ensures Now() == Step(old(Now()), handlers, WaiterRuns(k))
    {
      log := log + [Unsubscribed(k)];
      waiting := waiting - {k};
    }
  }

  predicate IsFrame(e: SessionEvent) {
    e.Received? || e.ReadFailed? || e.ReadPanics? || e.CloseFrame?
  }

  /** The events the loop itself causes: after a close frame it publishes the disconnected event. */
  function EventsOf(frames: seq<SessionEvent>): seq<SessionEvent> {
    if frames != [] && frames[|frames| - 1] == CloseFrame then frames + [PublishesDisconnect] else frames
  }

  function Flushed(s: State, errorMsg: Option<Message>, ok: bool): State {
    if errorMsg.Some? then Do(s, Wrote(errorMsg.value, ok)) else s
  }

  lemma NoClose(frames: seq<SessionEvent>, n: nat)
    requires n <= |frames| && forall i | 0 <= i < n :: frames[i] != CloseFrame
    ensures EventsOf(frames[..n]) == frames[..n]
  {
    assert n > 0 ==> frames[..n][n - 1] == frames[n - 1];
  }

  lemma StartOfRun(handlers: seq<PatternData>, s: State, none: seq<SessionEvent>)
    requires none == [] && s == Opened(s.id)
    ensures IsRun(handlers, [s], none)
  {
  }

  lemma StepOfReadFailed(s: State, handlers: seq<PatternData>, m: Message, message: string, ok: bool)
    ensures Step(s, handlers, ReadFailed(m, message, ok)) == Flushed(s, Some(ErrorFrame(m, InternalError(message))), ok)
  {
  }

  lemma StepOfReadPanics(s: State, handlers: seq<PatternData>)
    ensures Step(s, handlers, ReadPanics) == s.(loop := Loop.Crashed)
  {
  }

  lemma StepOfClose(s: State, handlers: seq<PatternData>)
    ensures Step(s, handlers, CloseFrame) == Do(s, Cancelled).(loop := Closing)
  {
  }

  lemma StepOfReceived(s: State, handlers: seq<PatternData>, m: Message, w: Answers)
    ensures Step(s, handlers, Received(m, w)) ==
      var (t, r) := Handle(s, handlers, m, w);
      match r
      case Done => t
      case Failed(e) => Flushed(t, Some(ErrorFrame(m, e)), w.errorWritten)
      case Panicked => t.(loop := Loop.Crashed)
  {
    hide Handle;
  }

  // ---- two consequences for clients ----

  /**
   `Publish` of the broker refuses every non-EVENT pattern of version above 1, and a socket can
   address no other pattern with a publish message: such a publish never reaches `PublishRaw`.
   */
  lemma SocketPublishIsRefused(handlers: seq<PatternData>, run: seq<State>, events: seq<SessionEvent>, n: nat,
                               i: nat, asked: Replies.Outcome)
    requires IsRun(handlers, run, events) && n < |run|
    requires i < |run[n].log| && run[n].log[i].Called? && run[n].log[i].call.ToPublish?
    ensures Handshake.Refusal(Handshake.Publishing, run[n].log[i].call.pattern, true, asked) ==
      if run[n].log[i].call.pattern.version <= 1 then None else Some(Handshake.InvalidRid(Handshake.Publishing))
  {
    hide IsRun;
    CallsArePermitted(handlers, run, events, n, i);
  }

  /** The event pattern of a monitor is never refused for its method. */
  lemma SocketMonitorIsAsked(handlers: seq<PatternData>, run: seq<State>, events: seq<SessionEvent>, n: nat, i: nat,
                             asked: Replies.Outcome)
    requires IsRun(handlers, run, events) && n < |run|
    requires i < |run[n].log| && run[n].log[i].Called? && run[n].log[i].call.ToMonitor?
    ensures Handshake.Refusal(Handshake.Monitoring, run[n].log[i].call.pattern, true, asked) == None <==>
      run[n].log[i].call.pattern.version <= 1 || Handshake.ErrorCode(asked) == None ||
          Handshake.ErrorCode(asked) == Some(503)
  {
    hide IsRun;
    CallsArePermitted(handlers, run, events, n, i);
  }

  lemma {:induction false} HeadOfSplit(a: string, b: string, sep: char)
    requires sep in a
    ensures Split(a + b, sep)[0] == Split(a, sep)[0]
  {
    assert (a + b)[0] == a[0] && (a + b)[1..] == a[1..] + b;
    if a[0] != sep {
      HeadOfSplit(a[1..], b, sep);
    }
  }

  lemma QueryEndsPath(m: Message)
    requires '?' in m.endpoint
    ensures EndpointParts(SpecificEndpoint(m)) == EndpointParts(m.endpoint)
  {
    HeadOfSplit(m.endpoint, "." + m.verb, '?');
    hide Split;
    assert SpecificEndpoint(m) == m.endpoint + ("." + m.verb);
  }

  /**
   The method is appended after the endpoint, so a `?query` in the endpoint swallows it: it plays
   no part in the lookup.
   */
  lemma QueryHidesMethod(m: Message, verb: string, p: PatternData)
    requires '?' in m.endpoint
    ensures MatchesPattern(p, SpecificEndpoint(m)) <==> MatchesPattern(p, SpecificEndpoint(m.(verb := verb)))
    ensures MatchesPattern(p, SpecificEndpoint(m)) <==> MatchesPattern(p, m.endpoint)
  {
    QueryEndsPath(m);
    QueryEndsPath(m.(verb := verb));
    hide Split, Fits, EndpointName, EndpointParts, SpecificEndpoint;
  }

  /** Without a `?` the method decides: what matches has exactly the message's method. */
  lemma MethodDecides(m: Message, p: PatternData)
    requires '?' !in m.endpoint && '?' !in m.verb && '.' !in m.verb
    requires WellFormed(p) && MatchesPattern(p, SpecificEndpoint(m))
    ensures p.httpMethod == m.verb
  {
    NoQuestionMark(SpecificEndpoint(m));
    PartsOfName(p);
    VerbIsLast(m.endpoint, m.verb);
    HolesOfPattern(p);
    var parts := Parts(p);
    assert parts[|parts| - 1] == p.httpMethod;
    hide Split, Parts, WellFormed, EndpointName, SpecificEndpoint;
  }

  lemma VerbIsLast(endpoint: string, verb: string)
    requires '.' !in verb
    ensures var parts := Split(endpoint + "." + verb, '.');
      parts[|parts| - 1] == verb
  {
    var parts := Split(endpoint, '.') + [verb];
    JoinConcat(Split(endpoint, '.'), [verb], '.');
    SplitOfJoin(parts, '.');
  }
}
