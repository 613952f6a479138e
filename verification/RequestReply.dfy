/**
 The request/reply protocol.  A handler sends any number of `timeout:N` extensions and then
 one reply (v2/pkg/broker/callbase.go); the requester waits for them in `processResponse`
 (v2/pkg/broker/providers/nats/provider.go) and decodes the reply in `Request`
 (v2/pkg/broker/specific-provider-base.go).  `encoding/json` on the reply record is a
 parameter; the data field inside it is `RawData`'s own text.
 */
module RequestReply {
  import opened Basics
  import opened RawData
  import opened TimeoutText

  /** The JSON fields of a reply: status code, the JSON text of the data, the error message. */
  datatype Wire = Wire(code: int, data: string, message: string)

  datatype Codec = Codec(encode: Wire -> string, decode: string -> Option<Wire>)

  /** What is asked of the JSON codec for one record: an object comes out, and reading it gives the record back. */
  ghost predicate FaithfulOn(codec: Codec, w: Wire) {
    codec.encode(w) != "" && codec.encode(w)[0] == '{' && codec.decode(codec.encode(w)) == Some(w)
  }

  datatype Reply = OkReply(data: Bytes) | ErrorReply(code: int, message: string, data: Bytes)

  const STATUS_OK: int := 200

  function WireOf(r: Reply): Wire {
    match r
    case OkReply(data) => Wire(STATUS_OK, MarshalJSON(data), "")
    case ErrorReply(code, message, data) => Wire(code, MarshalJSON(data), message)
  }

  // ---- the replying side ----

  /** What a handler passes to `OK`: nothing, a string or bytes, or a value and its JSON, if it has any. */
  datatype OkResult = NoResult | Plain(given: Bytes) | Encoded(json: Option<Bytes>)

  function DataOf(result: OkResult): Option<Bytes> {
    match result case NoResult => Some("") case Plain(given) => Some(given) case Encoded(json) => json
  }

  /**
   The errors a handler may pass: the broker's own, already traced or not, another `broker.Error`,
   or any Go error.
   */
  datatype GoError =
    | Message(code: int, message: string, data: Bytes)
    | Traceable(code: int, message: string, data: Bytes)
    | OtherBrokerError(code: int, message: string, data: Bytes)
    | AnyError(message: string)

  const INTERNAL_CODE: int := 500

  /**
   `Trace` (v2/pkg/broker/traceable.go) keeps the broker's own errors and turns every other into
   an internal error.
   */
  function Traced(err: GoError): Reply {
    match err
    case Message(code, message, data) => ErrorReply(code, message, data)
    case Traceable(code, message, data) => ErrorReply(code, message, data)
    case OtherBrokerError(_, message, _) => ErrorReply(INTERNAL_CODE, message, "")
    case AnyError(message) => ErrorReply(INTERNAL_CODE, message, "")
  }

  /** A call being handled: what has been sent to its reply subject, if it has one. */
  class CallBase {
    const replyStr: string
    const codec: Codec
    var sent: seq<string>

    constructor (reply: string, codec: Codec)
      ensures replyStr == reply && this.codec == codec && sent == []
    {
      replyStr, this.codec, sent := reply, codec, [];
    }

    method Timeout(d: Duration)
      modifies this
      ensures sent == old(sent) + if replyStr == "" then [] else [TimeoutMessage(d)]
    {
      if replyStr == "" {
        return;
      }
      var timeout := d;
      if timeout <= MIN_TIMEOUT {
        timeout := MIN_TIMEOUT;
      }
      sent := sent + [HEAD + Decimal(timeout)];
    }

    /** A result that cannot be encoded panics and sends nothing. */
    method OK(result: OkResult) returns (panicked: bool)
      modifies this
      ensures panicked == (replyStr != "" && DataOf(result) == None)
      ensures sent == old(sent) +
        if replyStr == "" || panicked then [] else [codec.encode(WireOf(OkReply(DataOf(result).value)))]
    {
      if replyStr == "" {
        return false;
      }
      var data: Bytes := "";
      match result {
        case NoResult =>
        case Plain(given) => data := given;
        case Encoded(json) =>
          if json == None {
            return true;
          }
          data := json.value;
      }
      sent := sent + [codec.encode(Wire(STATUS_OK, MarshalJSON(data), ""))];
      panicked := false;
    }

    /** The error is traced first, which makes an internal error of everything but the broker's own errors. */
    method Error(err: GoError)
      modifies this
      ensures sent == old(sent) + if replyStr == "" then [] else [codec.encode(WireOf(Traced(err)))]
    {
      var code, message, data: Bytes := INTERNAL_CODE, err.message, "";
      if err.Message? || err.Traceable? {
        code, data := err.code, err.data;
      }
      if replyStr == "" {
        return;
      }
      sent := sent + [codec.encode(Wire(code, MarshalJSON(data), message))];
    }
  }

  /** The messages of a handler that extends the wait `exts` times and then replies. */
  function Script(exts: seq<Duration>, r: Reply, codec: Codec): (s: seq<string>)
    ensures |s| == |exts| + 1
  {
    if exts == [] then [codec.encode(WireOf(r))] else [TimeoutMessage(exts[0])] + Script(exts[1..], r, codec)
  }

  /** How a handler ends. */
  datatype Ending = EndsOk(result: OkResult) | EndsInError(err: GoError)

  /** The reply it sends, unless its result cannot be encoded. */
  function ReplyFor(e: Ending): Option<Reply> {
    match e
    case EndsInError(err) => Some(Traced(err))
    case EndsOk(result) => if DataOf(result) == None then None else Some(OkReply(DataOf(result).value))
  }

  method RunHandler(call: CallBase, exts: seq<Duration>, end: Ending) returns (panicked: bool)
    requires call.replyStr != ""
    modifies call
    ensures panicked <==> ReplyFor(end) == None
    ensures !panicked ==> call.sent == old(call.sent) + Script(exts, ReplyFor(end).value, call.codec)
    ensures panicked ==> call.sent == old(call.sent) + Extending(exts)
  {
    hide Extending, Script, TimeoutMessage, WireOf, ReplyFor;
    ExtendingNone(exts[|exts|..]);
    assert exts[0..] == exts;
    for i := 0 to |exts|
      invariant call.sent + Extending(exts[i..]) == old(call.sent) + Extending(exts)
    {
      ExtendingNext(exts, i);
      Regroup(call.sent, [TimeoutMessage(exts[i])], Extending(exts[i + 1..]));
      call.Timeout(exts[i]);
    }
    panicked := Finish(call, end);
    if !panicked {
      ScriptIsExtending(exts, ReplyFor(end).value, call.codec);
      Regroup(old(call.sent), Extending(exts), [call.codec.encode(WireOf(ReplyFor(end).value))]);
    }
  }

  /** The handler's last call. */
  method Finish(call: CallBase, end: Ending) returns (panicked: bool)
    requires call.replyStr != ""
    modifies call
    ensures panicked <==> ReplyFor(end) == None
    ensures call.sent == old(call.sent) +
      if panicked then [] else [call.codec.encode(WireOf(ReplyFor(end).value))]
  {
    panicked := false;
    match end {
      case EndsOk(result) => panicked := call.OK(result);
      case EndsInError(err) => call.Error(err);
    }
  }

  lemma ExtendingNone(none: seq<Duration>)
    requires none == []
    ensures Extending(none) == []
  {
  }

  lemma ExtendingNext(exts: seq<Duration>, i: nat)
    requires i < |exts|
    ensures Extending(exts[i..]) == [TimeoutMessage(exts[i])] + Extending(exts[i + 1..])
  {
    assert exts[i..][1..] == exts[i + 1..];
  }

  function Extending(exts: seq<Duration>): seq<string> {
    if exts == [] then [] else [TimeoutMessage(exts[0])] + Extending(exts[1..])
  }

  lemma {:induction false} ScriptIsExtending(exts: seq<Duration>, r: Reply, codec: Codec)
    ensures Script(exts, r, codec) == Extending(exts) + [codec.encode(WireOf(r))]
  {
    if exts != [] {
      ScriptIsExtending(exts[1..], r, codec);
      assert [TimeoutMessage(exts[0])] + (Extending(exts[1..]) + [codec.encode(WireOf(r))])
          == Extending(exts) + [codec.encode(WireOf(r))];
    }
  }

  // ---- the waiting side ----

  /** A message in the inbox: when it arrives, and whether `select` prefers it to a timer firing at that very moment. */
  datatype Arrival = Arrival(at: nat, data: string, wins: bool)

  datatype Fault = TimedOut | Unavailable | InvalidTimeout | NotANumber

  datatype Response = Payload(data: string) | Broken(fault: Fault)

  function Wait(a: Arrival, now: nat): nat {
    if a.at > now then a.at - now else 0
  }

  function NonNegative(t: Duration): nat {
    if t > 0 then t else 0
  }

  /** The message is taken before the timer of `t` fires. */
  predicate TakenInTime(a: Arrival, now: nat, t: Duration) {
    Wait(a, now) < NonNegative(t) || (Wait(a, now) == NonNegative(t) && a.wins)
  }

  /** `processResponse` from time `now` with the current timeout `t`: the response and when it is known. */
  function Process(inbox: seq<Arrival>, now: nat, t: Duration): (Response, nat) {
    if inbox == [] || !TakenInTime(inbox[0], now, t) then (Broken(TimedOut), now + NonNegative(t))
    else
      var at := now + Wait(inbox[0], now);
      match GetTimeout(inbox[0].data)
      case Empty => (Broken(InvalidTimeout), at)
      case BadNumber => (Broken(NotANumber), at)
      case Extension(d) => Process(inbox[1..], at, d)
      case NotTimeout => (if inbox[0].data == "" then Broken(Unavailable) else Payload(inbox[0].data), at)
  }

  method ProcessResponse(inbox: seq<Arrival>, start: nat, given: Duration) returns (r: Response, end: nat)
    ensures (r, end) == Process(inbox, start, given)
  {
    var t: Duration := given;
    var now: nat := start;
    var next := 0;
    while next < |inbox|
      invariant 0 <= next <= |inbox|
      invariant Process(inbox[next..], now, t) == Process(inbox, start, given)
    {
      assert inbox[next..][1..] == inbox[next + 1..];
      var msg := inbox[next];
      if !TakenInTime(msg, now, t) {
        return Broken(TimedOut), now + NonNegative(t);
      }
      now := now + Wait(msg, now);
      next := next + 1;
      match GetTimeout(msg.data) {
        case Empty => return Broken(InvalidTimeout), now;
        case BadNumber => return Broken(NotANumber), now;
        case Extension(d) => t := d;
        case NotTimeout =>
          if msg.data == "" {
            return Broken(Unavailable), now;
          }
          return Payload(msg.data), now;
      }
    }
    r, end := Broken(TimedOut), now + NonNegative(t);
  }

  /** The extensions at the front of an inbox, added up. */
  function Extensions(inbox: seq<Arrival>): nat {
    if inbox == [] then 0
    else match GetTimeout(inbox[0].data)
      case Extension(d) => NonNegative(d) + Extensions(inbox[1..])
      case _ => 0
  }

  /** Whatever arrives, the wait is at most the initial timeout plus the sum of the extensions. */
  lemma {:induction false} WaitIsBounded(inbox: seq<Arrival>, now: nat, t: Duration)
    ensures now <= Process(inbox, now, t).1 <= now + NonNegative(t) + Extensions(inbox)
  {
    if inbox != [] && TakenInTime(inbox[0], now, t) {
      var at := now + Wait(inbox[0], now);
      match GetTimeout(inbox[0].data)
      case Extension(d) => WaitIsBounded(inbox[1..], at, d);
      case _ =>
    }
  }

  // ---- how the wait ends ----

  /** When the first `n` messages have been received. */
  function Latest(inbox: seq<Arrival>, n: nat, now: nat): nat
    requires n <= |inbox|
  {
    if n == 0 then now
    else
      var before := Latest(inbox, n - 1, now);
      if inbox[n - 1].at > before then inbox[n - 1].at else before
  }

  /** The timeout that runs after `n` extensions: what the last of them announced. */
  function Running(inbox: seq<Arrival>, n: nat, t: Duration): Duration
    requires n <= |inbox|
  {
    if n == 0 then t
    else match GetTimeout(inbox[n - 1].data) case Extension(d) => d case _ => 0
  }

  /** The next message is there in time. */
  predicate NextTaken(inbox: seq<Arrival>, n: nat, now: nat, t: Duration) {
    n < |inbox| && TakenInTime(inbox[n], Latest(inbox, n, now), Running(inbox, n, t))
  }

  /** The first `n` messages are extensions, each received before the timeout announced before it fires. */
  ghost predicate Extended(inbox: seq<Arrival>, n: nat, now: nat, t: Duration) {
    n <= |inbox| && forall i: nat | i < n :: NextTaken(inbox, i, now, t) && GetTimeout(inbox[i].data).Extension?
  }

  lemma {:induction false} LatestOfRest(inbox: seq<Arrival>, n: nat, now: nat)
    requires 1 <= n <= |inbox|
    ensures Latest(inbox, n, now) == Latest(inbox[1..], n - 1, now + Wait(inbox[0], now))
  {
    if n > 1 {
      LatestOfRest(inbox, n - 1, now);
    }
  }

  /** After a first extension the others are those of the rest. */
  lemma ExtendedRest(inbox: seq<Arrival>, n: nat, now: nat, t: Duration)
    requires 1 <= n <= |inbox| && GetTimeout(inbox[0].data).Extension?
    ensures var (rest, at, d) := (inbox[1..], now + Wait(inbox[0], now), GetTimeout(inbox[0].data).t);
      && Latest(inbox, n, now) == Latest(rest, n - 1, at) && Running(inbox, n, t) == Running(rest, n - 1, d)
      && (NextTaken(inbox, n, now, t) <==> NextTaken(rest, n - 1, at, d))
  {
    LatestOfRest(inbox, n, now);
    hide GetTimeout, TakenInTime, Latest;
    assert n > 1 ==> inbox[1..][n - 2] == inbox[n - 1];
    assert n < |inbox| ==> inbox[1..][n - 1] == inbox[n];
  }

  /** An extension in time. */
  lemma ProcessNext(inbox: seq<Arrival>, now: nat, t: Duration)
    requires NextTaken(inbox, 0, now, t) && GetTimeout(inbox[0].data).Extension?
    ensures inbox != []
    ensures Process(inbox, now, t) == Process(inbox[1..], now + Wait(inbox[0], now), GetTimeout(inbox[0].data).t)
  {
    hide GetTimeout;
  }

  /** Extensions are waited through. */
  lemma {:induction false} ProcessExtended(inbox: seq<Arrival>, n: nat, now: nat, t: Duration)
    requires Extended(inbox, n, now, t)
    ensures Process(inbox, now, t) == Process(inbox[n..], Latest(inbox, n, now), Running(inbox, n, t))
    decreases n
  {
    hide GetTimeout, TakenInTime, Process, NextTaken, Wait;
    if n == 0 {
      assert inbox[0..] == inbox;
    } else {
      assert NextTaken(inbox, 0, now, t) && GetTimeout(inbox[0].data).Extension?;
      ProcessNext(inbox, now, t);
      var rest, at, d := inbox[1..], now + Wait(inbox[0], now), GetTimeout(inbox[0].data).t;
      forall i: nat | i < n - 1 ensures NextTaken(rest, i, at, d) && GetTimeout(rest[i].data).Extension? {
        assert NextTaken(inbox, i + 1, now, t) && GetTimeout(inbox[i + 1].data).Extension?;
        ExtendedRest(inbox, i + 1, now, t);
      }
      ProcessExtended(rest, n - 1, at, d);
      ExtendedRest(inbox, n, now, t);
      assert rest[n - 1..] == inbox[n..];
    }
  }

  lemma LatestNext(inbox: seq<Arrival>, n: nat, now: nat)
    requires n < |inbox|
    ensures Latest(inbox, n + 1, now) == Latest(inbox, n, now) + Wait(inbox[n], Latest(inbox, n, now))
  {
  }

  /** A first message that is no extension in time. */
  predicate FirstTaken(inbox: seq<Arrival>, now: nat, t: Duration) {
    inbox != [] && TakenInTime(inbox[0], now, t)
  }

  lemma FirstDecides(inbox: seq<Arrival>, now: nat, t: Duration)
    requires FirstTaken(inbox, now, t) ==> !GetTimeout(inbox[0].data).Extension?
    ensures var (r, end) := Process(inbox, now, t);
      && (r == Broken(TimedOut) <==> !FirstTaken(inbox, now, t))
      && end == (if FirstTaken(inbox, now, t) then now + Wait(inbox[0], now) else now + NonNegative(t))
      && (r == Broken(Unavailable) <==> FirstTaken(inbox, now, t) && inbox[0].data == "")
      && (r == Broken(InvalidTimeout) <==> FirstTaken(inbox, now, t) && inbox[0].data == "timeout:")
      && (r == Broken(NotANumber) <==> FirstTaken(inbox, now, t) && GetTimeout(inbox[0].data) == BadNumber)
      && forall data :: r == Payload(data) <==>
           (FirstTaken(inbox, now, t) && inbox[0].data == data != "" && GetTimeout(data) == NotTimeout)
  {
    if FirstTaken(inbox, now, t) {
      ExtensionIff(inbox[0].data, 0);
      assert GetTimeout("") == NotTimeout;
    }
    hide GetTimeout, TakenInTime;
  }

  /**
   For any inbox: after the extensions that come in time, nothing or a message that comes too
   late is a timeout, known when the last announced timeout is over; otherwise the next message
   decides alone, by its text.
   */
  lemma {:induction false} ResponseIff(inbox: seq<Arrival>, now: nat, t: Duration) returns (n: nat)
    ensures Extended(inbox, n, now, t)
    ensures NextTaken(inbox, n, now, t) ==> !GetTimeout(inbox[n].data).Extension?
    ensures var (r, end) := Process(inbox, now, t);
      && (r == Broken(TimedOut) <==> !NextTaken(inbox, n, now, t))
      && (r == Broken(TimedOut) ==> end == Latest(inbox, n, now) + NonNegative(Running(inbox, n, t)))
      && (r != Broken(TimedOut) ==> end == Latest(inbox, n + 1, now))
      && (r == Broken(Unavailable) <==> NextTaken(inbox, n, now, t) && inbox[n].data == "")
      && (r == Broken(InvalidTimeout) <==> NextTaken(inbox, n, now, t) && inbox[n].data == "timeout:")
      && (r == Broken(NotANumber) <==> NextTaken(inbox, n, now, t) && GetTimeout(inbox[n].data) == BadNumber)
      && forall data :: r == Payload(data) <==>
           (NextTaken(inbox, n, now, t) && inbox[n].data == data != "" && GetTimeout(data) == NotTimeout)
  {
    n := ExtendedAll(inbox, now, t);
    ProcessExtended(inbox, n, now, t);
    NextIsFirst(inbox, n, now, t);
    hide *;
    FirstDecides(inbox[n..], Latest(inbox, n, now), Running(inbox, n, t));
    if n < |inbox| { LatestNext(inbox, n, now); }
  }

  lemma {:induction false} ExtendedAll(inbox: seq<Arrival>, now: nat, t: Duration) returns (n: nat)
    ensures Extended(inbox, n, now, t)
    ensures NextTaken(inbox, n, now, t) ==> !GetTimeout(inbox[n].data).Extension?
  {
    n := 0;
    hide TakenInTime, GetTimeout, Latest, Running, Extended;
    assert Extended(inbox, 0, now, t) by { NoneExtended(inbox, now, t); }
    while NextTaken(inbox, n, now, t) && GetTimeout(inbox[n].data).Extension?
      invariant Extended(inbox, n, now, t)
      decreases |inbox| - n
    {
      ExtendedMore(inbox, n, now, t);
      n := n + 1;
    }
  }

  lemma NoneExtended(inbox: seq<Arrival>, now: nat, t: Duration)
    ensures Extended(inbox, 0, now, t)
  {
  }

  lemma ExtendedMore(inbox: seq<Arrival>, n: nat, now: nat, t: Duration)
    requires Extended(inbox, n, now, t) && NextTaken(inbox, n, now, t) && GetTimeout(inbox[n].data).Extension?
    ensures n < |inbox| && Extended(inbox, n + 1, now, t)
  {
    hide GetTimeout, NextTaken;
    assert n < |inbox| by { NextIsFirst(inbox, n, now, t); }
  }

  lemma NextIsFirst(inbox: seq<Arrival>, n: nat, now: nat, t: Duration)
    requires n <= |inbox|
    ensures n < |inbox| ==> inbox[n..] != [] && inbox[n..][0] == inbox[n]
    ensures NextTaken(inbox, n, now, t) <==> FirstTaken(inbox[n..], Latest(inbox, n, now), Running(inbox, n, t))
    ensures NextTaken(inbox, n, now, t) ==> n < |inbox|
    ensures FirstTaken(inbox[n..], Latest(inbox, n, now), Running(inbox, n, t)) ==> inbox[n..] != []
  {
  }

  // ---- the whole request ----

  datatype Outcome = Success(data: string) | Failure(code: int, message: string, data: string) |
      Undelivered(fault: Fault)

  /** `math.Abs(code - 200) >= 100`. */
  predicate IsFailureCode(code: int) {
    code - STATUS_OK >= 100 || STATUS_OK - code >= 100
  }

  /** `NewMessageFromJSON` and the code test of `Request`. */
  function DecodeReply(codec: Codec, payload: string): Outcome {
    match codec.decode(payload)
    case None => Failure(500, "invalid payload", payload)
    case Some(w) =>
      match UnmarshalJSON(w.data)
      case None => Failure(500, "invalid payload", payload)
      case Some(data) => if IsFailureCode(w.code) then Failure(w.code, w.message, data) else Success(data)
  }

  function Request(codec: Codec, inbox: seq<Arrival>, start: nat, t: Duration): Outcome {
    match Process(inbox, start, t).0
    case Broken(fault) => Undelivered(fault)
    case Payload(payload) => DecodeReply(codec, payload)
  }

  /** A reply that is no JSON record, or whose data cannot be read, is an internal error that carries the reply. */
  lemma UnreadableReply(codec: Codec, inbox: seq<Arrival>, start: nat, t: Duration, payload: string)
    requires Process(inbox, start, t).0 == Payload(payload)
    ensures var unreadable := codec.decode(payload) == None || UnmarshalJSON(codec.decode(payload).value.data) == None;
      && (unreadable ==> Request(codec, inbox, start, t) == Failure(500, "invalid payload", payload))
      && (!unreadable ==>
            var w := codec.decode(payload).value;
            var data := UnmarshalJSON(w.data).value;
            Request(codec, inbox, start, t) ==
              if 101 <= w.code <= 299 then Success(data) else Failure(w.code, w.message, data))
  {
    hide Process, UnmarshalJSON;
  }

  /** Each message of the script arrives within the timeout announced before it. */
  ghost predicate InTime(inbox: seq<Arrival>, exts: seq<Duration>, now: nat, t: Duration)
    requires |inbox| > |exts|
    decreases |exts|
  {
    && Wait(inbox[0], now) < NonNegative(t)
    && (exts != [] ==> InTime(inbox[1..], exts[1..], now + Wait(inbox[0], now), Clamp(exts[0])))
  }

  ghost predicate Carries(inbox: seq<Arrival>, messages: seq<string>) {
    |inbox| >= |messages| && forall i | 0 <= i < |messages| :: inbox[i].data == messages[i]
  }

  /** The data as the requester sees it. */
  function Delivered(data: Bytes): string {
    if data == "" then "null" else data
  }

  /** What a reply is meant to be for the requester. */
  function Meant(r: Reply): Outcome {
    match r
    case OkReply(data) => Success(Delivered(data))
    case ErrorReply(code, message, data) =>
      if IsFailureCode(code) then Failure(code, message, Delivered(data)) else Success(Delivered(data))
  }

  /** The first message of a script that begins with an extension, and the rest of it. */
  lemma ScriptTail(inbox: seq<Arrival>, exts: seq<Duration>, r: Reply, codec: Codec)
    requires exts != [] && Carries(inbox, Script(exts, r, codec))
    ensures inbox != [] && GetTimeout(inbox[0].data) == Extension(Clamp(exts[0]))
    ensures Carries(inbox[1..], Script(exts[1..], r, codec))
  {
    var script := Script(exts, r, codec);
    GetTimeoutInvertsTimeout(exts[0]);
    hide GetTimeout, WireOf, TimeoutMessage;
    assert inbox[0].data == script[0];
    assert forall i | 0 <= i < |script| - 1 :: inbox[1..][i].data == script[i + 1] == script[1..][i];
  }

  /** A script without extensions is the reply alone, which is no extension. */
  lemma ScriptEnd(inbox: seq<Arrival>, r: Reply, codec: Codec)
    requires Carries(inbox, Script([], r, codec)) && FaithfulOn(codec, WireOf(r))
    ensures inbox != [] && inbox[0].data == codec.encode(WireOf(r)) != ""
    ensures GetTimeout(inbox[0].data) == NotTimeout
  {
    hide GetTimeout, WireOf;
    assert inbox[0].data == Script([], r, codec)[0];
    JsonIsNoTimeout(inbox[0].data);
  }

  lemma {:induction false} ProcessScript(inbox: seq<Arrival>, exts: seq<Duration>, r: Reply, codec: Codec, now: nat,
                                         t: Duration)
    requires Carries(inbox, Script(exts, r, codec)) && InTime(inbox, exts, now, t)
    requires FaithfulOn(codec, WireOf(r))
    ensures Process(inbox, now, t).0 == Payload(codec.encode(WireOf(r)))
    decreases |exts|
  {
    hide Script, GetTimeout, Clamp, WireOf, Carries;
    if exts != [] {
      ScriptTail(inbox, exts, r, codec);
      ProcessScript(inbox[1..], exts[1..], r, codec, now + Wait(inbox[0], now), Clamp(exts[0]));
    } else {
      ScriptEnd(inbox, r, codec);
    }
  }

  /** Marked data never comes back as it was, whether the reply is read as a success or as a failure. */
  lemma MarkedIsNotDelivered(r: Reply, codec: Codec)
    requires FaithfulOn(codec, WireOf(r)) && Marked(r.data)
    ensures var got := DecodeReply(codec, codec.encode(WireOf(r)));
      !got.Undelivered? && got.data != Delivered(r.data)
  {
    RoundTripIff(r.data);
    hide UnmarshalJSON;
    assert MarshalJSON(r.data) == r.data == Delivered(r.data);
    assert r.data[0] == MARK[0] != codec.encode(WireOf(r))[0];
  }

  lemma DecodeOfReply(r: Reply, codec: Codec)
    requires FaithfulOn(codec, WireOf(r))
    ensures DecodeReply(codec, codec.encode(WireOf(r))) == Meant(r) <==> !Marked(r.data)
  {
    RoundTripIff(r.data);
    if Marked(r.data) {
      MarkedIsNotDelivered(r, codec);
    }
  }

  /**
   For any number of extensions followed by one reply, each message arriving within the
   timeout announced so far, `Request` returns exactly that reply if and only if its data does
   not look already marked: extensions are never taken for it, and it is never taken for an
   extension.
   */
  lemma RequestReturnsReply(inbox: seq<Arrival>, exts: seq<Duration>, r: Reply, codec: Codec, start: nat, t: Duration)
    requires Carries(inbox, Script(exts, r, codec)) && InTime(inbox, exts, start, t)
    requires FaithfulOn(codec, WireOf(r))
    ensures Request(codec, inbox, start, t) == Meant(r) <==> !Marked(r.data)
  {
    ProcessScript(inbox, exts, r, codec, start, t);
    DecodeOfReply(r, codec);
  }

  /** The extensions of a script that come in time are waited through, the last one announcing what is left. */
  lemma {:induction false} ScriptExtends(inbox: seq<Arrival>, exts: seq<Duration>, now: nat, t: Duration)
    requires Carries(inbox, Extending(exts)) && forall i: nat | i < |exts| :: NextTaken(inbox, i, now, t)
    ensures |Extending(exts)| == |exts| && Extended(inbox, |exts|, now, t)
    ensures Running(inbox, |exts|, t) == if exts == [] then t else Clamp(exts[|exts| - 1])
  {
    forall i: nat | i < |exts| ensures i < |inbox| && GetTimeout(inbox[i].data) == Extension(Clamp(exts[i])) {
      ExtendingAt(exts, i);
      GetTimeoutInvertsTimeout(exts[i]);
    }
    ExtendingLength(exts);
    hide GetTimeout;
  }

  lemma {:induction false} ExtendingLength(exts: seq<Duration>)
    ensures |Extending(exts)| == |exts|
  {
    if exts != [] {
      ExtendingLength(exts[1..]);
    }
  }

  lemma {:induction false} ExtendingAt(exts: seq<Duration>, i: nat)
    requires i < |exts|
    ensures |Extending(exts)| == |exts| && Extending(exts)[i] == TimeoutMessage(exts[i])
  {
    ExtendingLength(exts);
    if i > 0 {
      ExtendingAt(exts[1..], i - 1);
      ExtendingLength(exts[1..]);
    }
  }

  /**
   When after any number of extensions in time nothing comes, or something that is too late, be
   it the reply itself, the request ends in a timeout, at the deadline announced last.
   */
  lemma LateReplyTimesOut(inbox: seq<Arrival>, exts: seq<Duration>, codec: Codec, now: nat, t: Duration)
    requires Carries(inbox, Extending(exts)) && forall i: nat | i < |exts| :: NextTaken(inbox, i, now, t)
    requires !NextTaken(inbox, |exts|, now, t)
    ensures |exts| <= |inbox|
    ensures var left := if exts == [] then t else Clamp(exts[|exts| - 1]);
      Process(inbox, now, t) == (Broken(TimedOut), Latest(inbox, |exts|, now) + NonNegative(left))
    ensures Request(codec, inbox, now, t) == Undelivered(TimedOut)
  {
    hide Carries, GetTimeout, Extending, NextTaken, FirstTaken, Process, Running, Latest, Extended;
    ScriptExtends(inbox, exts, now, t);
    assert |exts| <= |inbox| by { ExtendedFits(inbox, |exts|, now, t); }
    ProcessExtended(inbox, |exts|, now, t);
    NextIsFirst(inbox, |exts|, now, t);
    FirstDecides(inbox[|exts|..], Latest(inbox, |exts|, now), Running(inbox, |exts|, t));
  }

  lemma ExtendedFits(inbox: seq<Arrival>, n: nat, now: nat, t: Duration)
    requires Extended(inbox, n, now, t)
    ensures n <= |inbox|
  {
  }

  /** The error passed is one the broker sends as it is. */
  predicate SentAsIs(err: GoError) {
    err.Message? || err.Traceable? || (err.OtherBrokerError? && err.code == INTERNAL_CODE &&
        Delivered(err.data) == "null")
  }

  /**
   A handler's error comes back as an error, with its code, message and data, if and only if
   its code is outside 101..299, its data does not look already marked and it is one of the
   broker's own (or cannot be told from one).
   */
  lemma {:induction false} ErrorReturnedIff(inbox: seq<Arrival>, exts: seq<Duration>, err: GoError, codec: Codec,
                                            start: nat, t: Duration)
    requires var r := Traced(err);
      && Carries(inbox, Script(exts, r, codec)) && InTime(inbox, exts, start, t)
      && FaithfulOn(codec, WireOf(r))
    requires !err.AnyError?
    ensures Request(codec, inbox, start, t) == Failure(err.code, err.message, Delivered(err.data)) <==>
      !(101 <= Traced(err).code <= 299) && SentAsIs(err) && !Marked(err.data)
    ensures 101 <= Traced(err).code <= 299 && !Marked(err.data) ==>
      Request(codec, inbox, start, t) == Success(Delivered(err.data))
  {
    ProcessScript(inbox, exts, Traced(err), codec, start, t);
    ErrorDecodedIff(err, codec);
  }

  lemma ErrorDecodedIff(err: GoError, codec: Codec)
    requires !err.AnyError? && FaithfulOn(codec, WireOf(Traced(err)))
    ensures DecodeReply(codec, codec.encode(WireOf(Traced(err)))) == Failure(err.code, err.message, Delivered(err.data))
      <==> !(101 <= Traced(err).code <= 299) && SentAsIs(err) && !Marked(err.data)
    ensures 101 <= Traced(err).code <= 299 && !Marked(err.data) ==>
      DecodeReply(codec, codec.encode(WireOf(Traced(err)))) == Success(Delivered(err.data))
  {
    var r := Traced(err);
    DecodeOfReply(r, codec);
    hide DecodeReply, WireOf;
    if Marked(err.data) && r.data == err.data {
      MarkedIsNotDelivered(r, codec);
    }
  }

  /** Any other error comes back as an internal error with its text. */
  lemma AnyErrorReturned(inbox: seq<Arrival>, exts: seq<Duration>, err: GoError, codec: Codec, start: nat, t: Duration)
    requires var r := Traced(err);
      && Carries(inbox, Script(exts, r, codec)) && InTime(inbox, exts, start, t) && FaithfulOn(codec, WireOf(r))
    requires err.AnyError? || err.OtherBrokerError?
    ensures Request(codec, inbox, start, t) == Failure(INTERNAL_CODE, err.message, "null")
  {
    RequestReturnsReply(inbox, exts, Traced(err), codec, start, t);
  }

  /** An OK result comes back unchanged if and only if it is not empty and does not look already encoded. */
  lemma OkReturnedIff(inbox: seq<Arrival>, exts: seq<Duration>, data: Bytes, codec: Codec, start: nat, t: Duration)
    requires Carries(inbox, Script(exts, OkReply(data), codec)) && InTime(inbox, exts, start, t)
    requires FaithfulOn(codec, WireOf(OkReply(data)))
    ensures Request(codec, inbox, start, t) == Success(data) <==> data != "" && !Marked(data)
  {
    ProcessScript(inbox, exts, OkReply(data), codec, start, t);
    RoundTripIff(data);
  }

  /**
   What a handler passes to `OK` is what the requester gets: a text or bytes as they are and a value
   as its JSON, unless empty or already marked; nothing passed comes as `null`.
   */
  lemma OkResultReturned(inbox: seq<Arrival>, exts: seq<Duration>, result: OkResult, codec: Codec, start: nat,
                         t: Duration)
    requires ReplyFor(EndsOk(result)).Some?
    requires var r := ReplyFor(EndsOk(result)).value;
      Carries(inbox, Script(exts, r, codec)) && InTime(inbox, exts, start, t) && FaithfulOn(codec, WireOf(r))
    ensures result == NoResult ==> Request(codec, inbox, start, t) == Success("null")
    ensures result.Plain? ==>
      (Request(codec, inbox, start, t) == Success(result.given) <==> result.given != "" && !Marked(result.given))
    ensures result.Encoded? ==>
      && result.json.Some?
      && var json := result.json.value;
         Request(codec, inbox, start, t) == Success(json) <==> json != "" && !Marked(json)
  {
    OkReturnedIff(inbox, exts, DataOf(result).value, codec, start, t);
    if result == NoResult {
      RequestReturnsReply(inbox, exts, OkReply(""), codec, start, t);
    }
    hide InTime, Carries, Request, Script, Marked;
  }

  /** The sum of a script's extensions bounds the whole wait. */
  lemma {:induction false} ScriptExtensions(inbox: seq<Arrival>, exts: seq<Duration>, r: Reply, codec: Codec)
    requires Carries(inbox, Script(exts, r, codec)) && FaithfulOn(codec, WireOf(r))
    ensures Extensions(inbox) == Announced(exts)
    decreases |exts|
  {
    hide Script, GetTimeout, WireOf, Carries;
    if exts != [] {
      ScriptTail(inbox, exts, r, codec);
      ScriptExtensions(inbox[1..], exts[1..], r, codec);
    } else {
      ScriptEnd(inbox, r, codec);
    }
  }

  function Announced(exts: seq<Duration>): nat {
    if exts == [] then 0 else Clamp(exts[0]) + Announced(exts[1..])
  }

  lemma {:induction false} ScriptWaitIsBounded(inbox: seq<Arrival>, exts: seq<Duration>, r: Reply, codec: Codec,
                                               start: nat, t: Duration)
    requires Carries(inbox, Script(exts, r, codec)) && FaithfulOn(codec, WireOf(r))
    ensures Process(inbox, start, t).1 - start <= NonNegative(t) + Announced(exts)
  {
    ScriptExtensions(inbox, exts, r, codec);
    WaitIsBounded(inbox, start, t);
  }
}
