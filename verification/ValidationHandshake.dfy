/**
 The handshake before an event is published or monitored: `Publish` and `Monitor`
 (v2/pkg/broker/specific-provider-base.go) ask the event's service, whose
 `validatePublish`/`validateMonitor` (v2/pkg/spike/api-service-impl.go) runs the validators
 declared for the event of that name and replies through the request/reply protocol.
 */
module ValidationHandshake {
  import opened Basics
  import opened GoStrings
  import opened Segments
  import opened Endpoints
  import opened RawData
  import opened TimeoutText
  import opened RequestReply
  import opened AccessPipeline

  datatype Kind = Publishing | Monitoring

  datatype EventDeclaration = EventDeclaration(
    resource: PatternData, publishValidators: seq<Validator>, monitorValidators: seq<Validator>)

  function ValidatorsOf(e: EventDeclaration, kind: Kind): seq<Validator> {
    match kind case Publishing => e.publishValidators case Monitoring => e.monitorValidators
  }

  // ---- the validating service ----

  datatype Validation = Granted | Denied(err: Err) | Down(message: string)

  function NotDeclared(p: PatternData): Err {
    InternalError("endpoint " + EndpointName(p) + " not declared on Events arrays")
  }

  const NO_EVENTS := Err(500, "service does not declare events")

  const BAD_PATTERN := Err(500, "invalid rids.Pattern on payload")

  function FromChain(r: ChainResult): Validation {
    match r
    case Passed => Granted
    case Refused(_, e) => Denied(e)
    case Crashed(_, m) => Down(m)
  }

  function Validate(events: seq<EventDeclaration>, p: PatternData, kind: Kind): Validation {
    if events == [] then Denied(NotDeclared(p))
    else if EndpointName(events[0].resource) == EndpointName(p) then
      FromChain(Chain(ValidatorsOf(events[0], kind), 0, None, true))
    else Validate(events[1..], p, kind)
  }

  /** `declared` is what the service declares, if it declares events at all. */
  function ValidateReceived(declared: Option<seq<EventDeclaration>>, received: Option<PatternData>,
                            kind: Kind): Validation {
    if received == None then Denied(BAD_PATTERN)
    else if declared == None then Denied(NO_EVENTS)
    else Validate(declared.value, received.value, kind)
  }

  /**
   `validatePublish` and `validateMonitor`: the decision is left in the access error; `Down` is a
   validator's panic.
   */
  method ValidateEvent(access: Access, received: Option<PatternData>, declared: Option<seq<EventDeclaration>>,
                       kind: Kind)
    returns (v: Validation)
    requires access.grantClears && access.err == None
    modifies access
    ensures v == ValidateReceived(declared, received, kind)
    ensures !v.Down? ==> access.err == (if v.Denied? then Some(v.err) else None)
  {
    if received == None {
      access.AccessDenied(DenyWith(BAD_PATTERN));
      return Denied(BAD_PATTERN);
    }
    if declared == None {
      access.AccessDenied(DenyWith(NO_EVENTS));
      return Denied(NO_EVENTS);
    }
    var p, events := received.value, declared.value;
    for i := 0 to |events|
      invariant access.err == None && Validate(events, p, kind) == Validate(events[i..], p, kind)
    {
      assert events[i..][1..] == events[i + 1..];
      if EndpointName(events[i].resource) == EndpointName(p) {
        var validators := ValidatorsOf(events[i], kind);
        if |validators| == 0 {
          access.AccessGranted();
          return Granted;
        }
        var r, _ := RunChain(access, validators);
        return FromChain(r);
      }
    }
    access.AccessDenied(DenyWith(NotDeclared(p)));
    v := Denied(NotDeclared(p));
  }

  /** The error as it is passed to `call.Error`. */
  function AsGoError(e: Err): GoError {
    match e
    case Err(code, message, data) => Message(code, message, data)
    case OtherErr(code, message, data) => OtherBrokerError(code, message, data)
  }

  function ReplyOf(v: Validation): Reply
    requires !v.Down?
  {
    match v case Granted => OkReply("") case Denied(e) => Traced(AsGoError(e))
  }

  /** The first declared event of the pattern's name is event `j`. */
  ghost predicate DeclaredAt(events: seq<EventDeclaration>, p: PatternData, j: nat) {
    && j < |events| && EndpointName(events[j].resource) == EndpointName(p)
    && forall i | 0 <= i < j :: EndpointName(events[i].resource) != EndpointName(p)
  }

  ghost predicate AllSilent(vs: seq<Validator>) {
    forall k | 0 <= k < |vs| :: Silent(vs[k], true)
  }

  /** Dropping a first event of another name moves the first declaration down by one. */
  lemma DeclaredInTail(events: seq<EventDeclaration>, p: PatternData, j: nat)
    requires events != [] && EndpointName(events[0].resource) != EndpointName(p)
    ensures DeclaredAt(events, p, j + 1) <==> DeclaredAt(events[1..], p, j)
    ensures !DeclaredAt(events, p, 0)
  {
    hide EndpointName;
    var tail := events[1..];
    assert forall i | 0 <= i < |tail| :: tail[i] == events[i + 1];
    if DeclaredAt(tail, p, j) {
      forall i | 0 <= i < j + 1
        ensures EndpointName(events[i].resource) != EndpointName(p)
      {
        assert i == 0 || events[i] == tail[i - 1];
      }
    }
  }

  /** A service with no declaration of the name denies; otherwise the first declaration's validators decide. */
  lemma {:induction false} FirstDeclarationDecides(events: seq<EventDeclaration>, p: PatternData, kind: Kind)
    returns (j: nat)
    ensures j <= |events| && (j < |events| ==> DeclaredAt(events, p, j))
    ensures j == |events| ==> forall i | 0 <= i < |events| :: EndpointName(events[i].resource) != EndpointName(p)
    ensures Validate(events, p, kind) ==
      if j == |events| then Denied(NotDeclared(p)) else FromChain(Chain(ValidatorsOf(events[j], kind), 0, None, true))
    decreases |events|
  {
    hide EndpointName, Chain, FromChain, NotDeclared, ValidatorsOf;
    if events == [] || EndpointName(events[0].resource) == EndpointName(p) {
      j := 0;
    } else {
      var k := FirstDeclarationDecides(events[1..], p, kind);
      DeclaredInTail(events, p, k);
      assert forall i | 0 < i < |events| :: events[i] == events[1..][i - 1];
      j := k + 1;
    }
  }

  /**
   The service grants exactly when the event is declared and no validator of its first declaration
   leaves an error.
   */
  lemma {:induction false} GrantedIff(events: seq<EventDeclaration>, p: PatternData, kind: Kind)
    ensures Validate(events, p, kind) == Granted <==>
      exists j: nat :: DeclaredAt(events, p, j) && AllSilent(ValidatorsOf(events[j], kind))
  {
    hide EndpointName, Validate, ValidatorsOf, NotDeclared;
    var j := FirstDeclarationDecides(events, p, kind);
    if j < |events| {
      ChainStopsAtFirst(ValidatorsOf(events[j], kind), 0, true);
      hide Chain;
      if k: nat :| DeclaredAt(events, p, k) {
        assert k == j;
      }
    }
  }

  /** For a publish these are the publish validators alone ... */
  lemma PublishGrantedIff(events: seq<EventDeclaration>, p: PatternData)
    ensures Validate(events, p, Publishing) == Granted <==>
      exists j: nat :: DeclaredAt(events, p, j) && AllSilent(events[j].publishValidators)
  {
    GrantedIff(events, p, Publishing);
    hide Validate, DeclaredAt, AllSilent;
  }

  /** ... and for a monitor the monitor validators alone. */
  lemma MonitorGrantedIff(events: seq<EventDeclaration>, p: PatternData)
    ensures Validate(events, p, Monitoring) == Granted <==>
      exists j: nat :: DeclaredAt(events, p, j) && AllSilent(events[j].monitorValidators)
  {
    GrantedIff(events, p, Monitoring);
    hide Validate, DeclaredAt, AllSilent;
  }

  /** Validator `i` is the first that leaves an error, without panicking. */
  ghost predicate DeniesAt(vs: seq<Validator>, i: nat, e: Err) {
    i < |vs| && vs[i].panic == None && LeavesError(vs[i], e) && forall k | 0 <= k < i :: Silent(vs[k], true)
  }

  /** Declared, it is denied with the error of the first validator that leaves one, if that one does not panic. */
  lemma {:induction false} DeniedIff(events: seq<EventDeclaration>, p: PatternData, kind: Kind, j: nat, e: Err)
    requires DeclaredAt(events, p, j)
    ensures var vs := if kind == Publishing then events[j].publishValidators else events[j].monitorValidators;
      Validate(events, p, kind) == Denied(e) <==> exists i: nat :: DeniesAt(vs, i, e)
  {
    var vs := ValidatorsOf(events[j], kind);
    var first := FirstDeclarationDecides(events, p, kind);
    assert first == j;
    var r := Chain(vs, 0, None, true);
    hide Validate, Chain, LeavesError, Silent;
    ChainStopsAtFirst(vs, 0, true);
    if r.Refused? {
      RefusedBy(vs, r.index, r.err);
      ValidatorRefusedIff(vs, r.index, e);
      assert r.err == e ==> DeniesAt(vs, r.index, e);
    }
    if i: nat :| DeniesAt(vs, i, e) {
      ValidatorRefusedIff(vs, i, e);
    }
  }

  lemma RefusedBy(vs: seq<Validator>, i: nat, e: Err)
    requires Chain(vs, 0, None, true) == Refused(i, e)
    ensures i < |vs| && vs[i].panic == None
  {
    ChainStopsAtFirst(vs, 0, true);
    ChainAt(vs, 0, i, true);
  }

  // ---- the pattern on the wire ----

  datatype PatternCodec = PatternCodec(encode: PatternData -> Bytes, decode: string -> Option<PatternData>)

  ghost predicate FaithfulOnPattern(pc: PatternCodec, p: PatternData) {
    pc.encode(p) != "" && pc.encode(p)[0] == '{' && pc.decode(pc.encode(p)) == Some(p)
  }

  /** The pattern as the service reads it: JSON, carried as `RawData` inside the call, and parsed again. */
  function Received(pc: PatternCodec, p: PatternData): Option<PatternData> {
    match UnmarshalJSON(MarshalJSON(pc.encode(p)))
    case None => None
    case Some(text) => pc.decode(text)
  }

  lemma ReceivedIsSent(pc: PatternCodec, p: PatternData)
    requires FaithfulOnPattern(pc, p)
    ensures Received(pc, p) == Some(p)
  {
    RoundTripIff(pc.encode(p));
  }

  /** `NewPatternFromString` (v2/pkg/rids/pattern.go): the text up to the first dot is the service. */
  function PatternFromString(endpoint: string, verb: string): Option<PatternData> {
    var parts := Split(endpoint, '.');
    if |parts| < 2 then None
    else Some(PatternData(parts[0], Join(parts[1..], '.'), verb, map[], false, 2, None))
  }

  /** The validation request reaches the subject the service subscribed to, however many dots its name holds. */
  lemma ValidationSubjectAgrees(service: string, action: string)
    requires action != "" && '.' !in action
    ensures var asked := PatternFromString(service + "." + action, INTERNAL);
      && asked.Some?
      && EndpointName(asked.value) == EndpointName(PatternData(service, action, INTERNAL, map[], false, 2, None))
  {
    var parts := Split(service, '.') + [action];
    JoinConcat(Split(service, '.'), [action], '.');
    SplitOfJoin(parts, '.');
    assert parts == [parts[0]] + parts[1..];
    JoinOfCons(parts[0], parts[1..], '.');
    var path := Join(parts[1..], '.');
    assert service + "." + action == parts[0] + (['.'] + path);
    assert path != "" by {
      if |parts| > 2 { JoinOfCons(parts[1], parts[2..], '.'); assert parts[1..] == [parts[1]] + parts[2..]; }
    }
    assert parts[0] + "." + path + "." + INTERNAL == service + "." + action + "." + INTERNAL;
  }

  // ---- the asking broker ----

  function FaultCode(f: Fault): int {
    match f case TimedOut => 408 case Unavailable => 503 case InvalidTimeout => 400 case NotANumber => 500
  }

  /** The error of a request, if it is one, and its code. */
  function ErrorCode(o: Outcome): Option<int> {
    match o
    case Success(_) => None
    case Failure(code, _, _) => Some(code)
    case Undelivered(f) => Some(FaultCode(f))
  }

  function InvalidRid(kind: Kind): Outcome {
    match kind
    case Publishing => Failure(500, "invalid RID, can only publish on Event Methods", "")
    case Monitoring => Failure(500, "invalid RID, can only monitor Event Methods", "")
  }

  /** What `Publish` and `Monitor` return instead of going on; `asked` is the outcome of the validation request. */
  function Refusal(kind: Kind, p: PatternData, withToken: bool, asked: Outcome): Option<Outcome> {
    if p.version <= 1 then None
    else if p.httpMethod != EVENT then Some(InvalidRid(kind))
    else if withToken && ErrorCode(asked).Some? && ErrorCode(asked) != Some(503) then Some(asked)
    else None
  }

  /**
   The broker's side: what reached `PublishRaw` and `SubscribeRaw`.  `raw` is the error those
   two return themselves, if they are reached.
   */
  class SpecificProvider {
    var published: seq<string>
    var subscribed: seq<PatternData>

    constructor ()
      ensures published == [] && subscribed == []
    {
      published, subscribed := [], [];
    }

    method Publish(p: PatternData, withToken: bool, codec: Codec, inbox: seq<Arrival>, start: nat, t: Duration,
                   raw: Option<Outcome>)
      returns (err: Option<Outcome>)
      modifies this
      ensures var refusal := Refusal(Publishing, p, withToken, Request(codec, inbox, start, t));
        && err == (if refusal == None then raw else refusal)
        && published == old(published) + if refusal == None then [EndpointNameSpecific(p)] else []
      ensures subscribed == old(subscribed)
    {
      err := Check(Publishing, p, withToken, codec, inbox, start, t);
      if err == None {
        published := published + [EndpointNameSpecific(p)];
        err := raw;
      }
    }

    method Monitor(p: PatternData, withToken: bool, codec: Codec, inbox: seq<Arrival>, start: nat, t: Duration,
                   raw: Option<Outcome>)
      returns (err: Option<Outcome>)
      modifies this
      ensures var refusal := Refusal(Monitoring, p, withToken, Request(codec, inbox, start, t));
        && err == (if refusal == None then raw else refusal)
        && subscribed == old(subscribed) + if refusal == None then [p] else []
      ensures published == old(published)
    {
      err := Check(Monitoring, p, withToken, codec, inbox, start, t);
      if err == None {
        subscribed := subscribed + [p];
        err := raw;
      }
    }

    method Check(kind: Kind, p: PatternData, withToken: bool, codec: Codec, inbox: seq<Arrival>, start: nat,
                 t: Duration)
      returns (err: Option<Outcome>)
      ensures err == Refusal(kind, p, withToken, Request(codec, inbox, start, t))
    {
      if p.version > 1 {
        if p.httpMethod != EVENT {
          return Some(InvalidRid(kind));
        }
        if withToken {
          var asked := Request(codec, inbox, start, t);
          if ErrorCode(asked).Some? && ErrorCode(asked) != Some(503) {
            return Some(asked);
          }
        }
      }
      err := None;
    }
  }

  // ---- both sides together ----

  /** The requester's inbox holds what the service sends for this pattern, every message in time. */
  ghost predicate Answered(inbox: seq<Arrival>, exts: seq<Duration>, declared: Option<seq<EventDeclaration>>,
                           kind: Kind, p: PatternData, pc: PatternCodec, codec: Codec, start: nat, t: Duration)
  {
    var v := ValidateReceived(declared, Received(pc, p), kind);
    && FaithfulOnPattern(pc, p)
    && !v.Down?
    && FaithfulOn(codec, WireOf(ReplyOf(v)))
    && Carries(inbox, Script(exts, ReplyOf(v), codec))
    && InTime(inbox, exts, start, t)
  }

  /** The code an error is sent with: its own, unless another implementation of `broker.Error` carries it. */
  function SentCode(e: Err): int {
    if e.OtherErr? then INTERNAL_CODE else e.code
  }

  /** The asking side can read the error's data; data that only looks encoded it cannot. */
  predicate Readable(e: Err) {
    UnmarshalJSON(MarshalJSON(Traced(AsGoError(e)).data)).Some?
  }

  /**
   The validation lets the event through: it grants, or denies in a way the asking side does not
   take for a refusal.
   */
  predicate LetsThrough(v: Validation) {
    v == Granted || (v.Denied? && Readable(v.err) && (101 <= SentCode(v.err) <= 299 || SentCode(v.err) == 503))
  }

  /** The asking side goes on exactly after such a validation. */
  lemma {:induction false} RefusalIff(v: Validation, kind: Kind, p: PatternData, codec: Codec)
    requires p.version > 1 && p.httpMethod == EVENT && !v.Down? && FaithfulOn(codec, WireOf(ReplyOf(v)))
    ensures Refusal(kind, p, true, DecodeReply(codec, codec.encode(WireOf(ReplyOf(v))))) == None <==> LetsThrough(v)
  {
    if v == Granted {
      RoundTripIff("");
    }
    hide MarshalJSON, UnmarshalJSON;
  }

  /**
   Over the whole wire: for a version-2 event with a token, the broker goes on if and only if
   the service's validation lets the event through in that sense.
   */
  lemma {:induction false} GoesOnIff(inbox: seq<Arrival>, exts: seq<Duration>, events: seq<EventDeclaration>,
                                     kind: Kind, p: PatternData, pc: PatternCodec, codec: Codec,
                                     start: nat, t: Duration)
    requires p.version > 1 && p.httpMethod == EVENT
    requires Answered(inbox, exts, Some(events), kind, p, pc, codec, start, t)
    ensures Refusal(kind, p, true, Request(codec, inbox, start, t)) == None <==> LetsThrough(Validate(events, p, kind))
  {
    ReceivedIsSent(pc, p);
    var v := Validate(events, p, kind);
    hide Validate, FaithfulOnPattern, LetsThrough, Refusal, DecodeReply, Process, WireOf, ReplyOf, Script, Received;
    ProcessScript(inbox, exts, ReplyOf(v), codec, start, t);
    RefusalIff(v, kind, p, codec);
  }

  /**
   A validator that denies with one of the broker's own errors and such a code does not stop the
   event, unless the error's data looks marked and what follows the mark is no base64 string ...
   */
  lemma OwnCodeLetsThrough(code: int, message: string, data: Bytes)
    ensures LetsThrough(Denied(Err(code, message, data))) <==>
      && (101 <= code <= 299 || code == 503)
      && (Marked(data) ==> DecodeQuoted("\"" + data[6..]).Some?)
  {
    RoundTripIff(data);
  }

  /** ... with another implementation of `broker.Error` it always does. */
  lemma OtherErrorRefuses(code: int, message: string, data: Bytes)
    ensures !LetsThrough(Denied(OtherErr(code, message, data)))
  {
  }

  /** No validator leaves an error sent with a code in 101..299 or 503, and the chain does not panic. */
  ghost predicate ProperErrors(events: seq<EventDeclaration>, p: PatternData, kind: Kind) {
    var v := Validate(events, p, kind);
    v.Denied? ==> !(101 <= SentCode(v.err) <= 299) && SentCode(v.err) != 503
  }

  /**
   Hence the event is published (or monitored) if and only if an event of the same endpoint
   name is declared and no validator of the first such declaration leaves an error.
   */
  lemma {:induction false} ReachedIffDeclaredAndValid(inbox: seq<Arrival>, exts: seq<Duration>,
                                                      events: seq<EventDeclaration>, kind: Kind, p: PatternData,
                                                      pc: PatternCodec, codec: Codec, start: nat, t: Duration)
    requires p.version > 1 && p.httpMethod == EVENT && ProperErrors(events, p, kind)
    requires Answered(inbox, exts, Some(events), kind, p, pc, codec, start, t)
    ensures Refusal(kind, p, true, Request(codec, inbox, start, t)) == None <==>
      exists j: nat :: DeclaredAt(events, p, j) && AllSilent(ValidatorsOf(events[j], kind))
  {
    GoesOnIff(inbox, exts, events, kind, p, pc, codec, start, t);
    GrantedIff(events, p, kind);
  }

  /** Without an answer in time the broker refuses; when nobody listens (an empty message) it goes on. */
  lemma Unanswered(kind: Kind, p: PatternData, codec: Codec, at: nat, start: nat, t: Duration)
    requires p.version > 1 && p.httpMethod == EVENT
    ensures Refusal(kind, p, true, Request(codec, [], start, t)) == Some(Undelivered(TimedOut))
    ensures TakenInTime(Arrival(at, "", true), start, t) ==>
      Refusal(kind, p, true, Request(codec, [Arrival(at, "", true)], start, t)) == None
  {
    assert GetTimeout("") == NotTimeout;
  }

  /** A publish is reached over the whole wire exactly as the publish validators of its event decide. */
  lemma PublishReachedIff(inbox: seq<Arrival>, exts: seq<Duration>, events: seq<EventDeclaration>, p: PatternData,
                          pc: PatternCodec, codec: Codec, start: nat, t: Duration)
    requires p.version > 1 && p.httpMethod == EVENT && ProperErrors(events, p, Publishing)
    requires Answered(inbox, exts, Some(events), Publishing, p, pc, codec, start, t)
    ensures Refusal(Publishing, p, true, Request(codec, inbox, start, t)) == None <==>
      exists j: nat :: DeclaredAt(events, p, j) && AllSilent(events[j].publishValidators)
  {
    ReachedIffDeclaredAndValid(inbox, exts, events, Publishing, p, pc, codec, start, t);
    hide Refusal, Answered, Validate, ProperErrors, DeclaredAt, AllSilent;
  }

  /** A monitor exactly as its monitor validators do. */
  lemma MonitorReachedIff(inbox: seq<Arrival>, exts: seq<Duration>, events: seq<EventDeclaration>, p: PatternData,
                          pc: PatternCodec, codec: Codec, start: nat, t: Duration)
    requires p.version > 1 && p.httpMethod == EVENT && ProperErrors(events, p, Monitoring)
    requires Answered(inbox, exts, Some(events), Monitoring, p, pc, codec, start, t)
    ensures Refusal(Monitoring, p, true, Request(codec, inbox, start, t)) == None <==>
      exists j: nat :: DeclaredAt(events, p, j) && AllSilent(events[j].monitorValidators)
  {
    ReachedIffDeclaredAndValid(inbox, exts, events, Monitoring, p, pc, codec, start, t);
    hide Refusal, Answered, Validate, ProperErrors, DeclaredAt, AllSilent;
  }

  /** An answer that denies without data and with any other code is returned as it was given. */
  lemma DenialIsReturned(inbox: seq<Arrival>, exts: seq<Duration>, declared: Option<seq<EventDeclaration>>,
                         kind: Kind, p: PatternData, pc: PatternCodec, codec: Codec, start: nat, t: Duration,
                         code: int, message: string)
    requires p.version > 1 && p.httpMethod == EVENT && !(101 <= code <= 299) && code != 503
    requires Answered(inbox, exts, declared, kind, p, pc, codec, start, t)
    requires ValidateReceived(declared, Received(pc, p), kind) == Denied(Err(code, message))
    ensures Refusal(kind, p, true, Request(codec, inbox, start, t)) == Some(Failure(code, message, "null"))
  {
    hide ValidateReceived, Received;
    RequestReturnsReply(inbox, exts, ErrorReply(code, message, ""), codec, start, t);
  }

  /** An event that is not declared is refused, whatever the validators of the others are ... */
  lemma UndeclaredIsRefused(inbox: seq<Arrival>, exts: seq<Duration>, events: seq<EventDeclaration>, kind: Kind,
                            p: PatternData, pc: PatternCodec, codec: Codec, start: nat, t: Duration)
    requires p.version > 1 && p.httpMethod == EVENT
    requires Answered(inbox, exts, Some(events), kind, p, pc, codec, start, t)
    requires forall j | 0 <= j < |events| :: EndpointName(events[j].resource) != EndpointName(p)
    ensures Refusal(kind, p, true, Request(codec, inbox, start, t)) ==
      Some(Failure(500, "endpoint " + EndpointName(p) + " not declared on Events arrays", "null"))
  {
    ReceivedIsSent(pc, p);
    var j := FirstDeclarationDecides(events, p, kind);
    hide Answered, Validate, EndpointName, Received, Refusal;
    DenialIsReturned(inbox, exts, Some(events), kind, p, pc, codec, start, t, 500,
                     "endpoint " + EndpointName(p) + " not declared on Events arrays");
  }

  /** ... and every event of a service that declares none. */
  lemma NoEventsIsRefused(inbox: seq<Arrival>, exts: seq<Duration>, kind: Kind, p: PatternData, pc: PatternCodec,
                          codec: Codec, start: nat, t: Duration)
    requires p.version > 1 && p.httpMethod == EVENT
    requires Answered(inbox, exts, None, kind, p, pc, codec, start, t)
    ensures Refusal(kind, p, true, Request(codec, inbox, start, t)) ==
      Some(Failure(500, "service does not declare events", "null"))
  {
    ReceivedIsSent(pc, p);
    hide Answered, Received, Refusal;
    DenialIsReturned(inbox, exts, None, kind, p, pc, codec, start, t, 500, "service does not declare events");
  }

  /**
   Without a proper answer: after the extensions that come in time the broker goes on exactly if
   the next message is there in time and empty (nobody listens); a late or missing answer and a
   broken extension refuse.
   */
  lemma {:induction false} BrokenAnswerIff(inbox: seq<Arrival>, kind: Kind, p: PatternData, codec: Codec, start: nat,
                                           t: Duration)
    returns (n: nat)
    requires p.version > 1 && p.httpMethod == EVENT && Process(inbox, start, t).0.Broken?
    ensures Extended(inbox, n, start, t)
    ensures Refusal(kind, p, true, Request(codec, inbox, start, t)) == None <==>
      NextTaken(inbox, n, start, t) && inbox[n].data == ""
    ensures !NextTaken(inbox, n, start, t) ==>
      Refusal(kind, p, true, Request(codec, inbox, start, t)) == Some(Undelivered(TimedOut))
  {
    n := ResponseIff(inbox, start, t);
    hide Process, NextTaken, Extended, GetTimeout;
  }

  /** A validation answer that comes too late does not let the event through. */
  lemma LateAnswerRefuses(inbox: seq<Arrival>, exts: seq<Duration>, kind: Kind, p: PatternData, codec: Codec,
                          start: nat, t: Duration)
    requires p.version > 1 && p.httpMethod == EVENT
    requires Carries(inbox, Extending(exts)) && forall i: nat | i < |exts| :: NextTaken(inbox, i, start, t)
    requires !NextTaken(inbox, |exts|, start, t)
    ensures Refusal(kind, p, true, Request(codec, inbox, start, t)) == Some(Undelivered(TimedOut))
  {
    TimeoutRefuses(kind, p);
    hide *;
    LateReplyTimesOut(inbox, exts, codec, start, t);
  }

  lemma TimeoutRefuses(kind: Kind, p: PatternData)
    requires p.version > 1 && p.httpMethod == EVENT
    ensures Refusal(kind, p, true, Undelivered(TimedOut)) == Some(Undelivered(TimedOut))
  {
  }

  /** Who is not asked: version-1 patterns go on, other methods do not, and without a token nobody decides. */
  lemma NotAskedIff(kind: Kind, p: PatternData, withToken: bool)
    ensures (forall a, b :: Refusal(kind, p, withToken, a) == Refusal(kind, p, withToken, b))
      <==> p.version <= 1 || p.httpMethod != "EVENT" || !withToken
    ensures p.version <= 1 || (p.httpMethod == "EVENT" && !withToken) ==>
      forall asked :: Refusal(kind, p, withToken, asked) == None
    ensures p.version > 1 && p.httpMethod != "EVENT" ==>
      forall asked :: Refusal(kind, p, withToken, asked) == Some(Failure(500, if kind == Publishing
        then "invalid RID, can only publish on Event Methods"
        else "invalid RID, can only monitor Event Methods", ""))
  {
    if p.version > 1 && p.httpMethod == "EVENT" && withToken {
      assert Refusal(kind, p, true, Success("")) == None != Refusal(kind, p, true, Undelivered(TimedOut));
    }
  }
}
