/**
 Who may call a handler: the gate and the validator chain of `handleRequest`
 (v2/pkg/spike/request-handler.go), the mutable access error the validators write
 (v2/pkg/broker/access.go), and the test double `handleAccessForTest`
 (v2/pkg/spike/test-request-handler.go) that has to agree with them.
 */
module AccessPipeline {
  import opened Basics
  import opened RawData

  /** A `broker.Error`: the broker's own type, or another implementation of the interface. */
  datatype Err =
    | Err(code: int, message: string, data: Bytes := "")
    | OtherErr(code: int, message: string, data: Bytes := "")

  const UNAUTHORIZED := Err(401, "not authorized")
  const FORBIDDEN := Err(403, "forbidden")
  const ACCESS_DENIED := Err(403, "access denied")
  const UNAVAILABLE := Err(503, "service unavailable")

  function InternalError(message: string): Err {
    Err(500, message)
  }

  /** What a validator decides: `AccessDenied` with nothing, a broker error or another error, or `AccessGranted`. */
  datatype Decision = DenyDefault | DenyWith(err: Err) | DenyPlain(message: string) | Grant

  /** A validator on a given request: the decisions it takes, then possibly a panic. */
  datatype Validator = Validator(decisions: seq<Decision>, panic: Option<string>)

  function DenialError(d: Decision): Err
    requires !d.Grant?
  {
    match d
    case DenyDefault => ACCESS_DENIED
    case DenyWith(err) => err
    case DenyPlain(message) => InternalError(message)
  }

  /** The access error after one decision; only the production access forgets it on `AccessGranted`. */
  function Decide(err: Option<Err>, d: Decision, grantClears: bool): Option<Err> {
    if d.Grant? then (if grantClears then None else err) else Some(DenialError(d))
  }

  function DecideAll(err: Option<Err>, ds: seq<Decision>, grantClears: bool): Option<Err>
    decreases |ds|
  {
    if ds == [] then err else DecideAll(Decide(err, ds[0], grantClears), ds[1..], grantClears)
  }

  /** The access object: broker.accessRequest clears its error on a grant, the test provider's does not. */
  class Access {
    const grantClears: bool
    var err: Option<Err>

    constructor (production: bool)
      ensures grantClears == production && err == None
    {
      grantClears, err := production, None;
    }

    method AccessDenied(d: Decision)
      requires !d.Grant?
      modifies this
      ensures err == Some(DenialError(d))
    {
      match d {
        case DenyWith(e) => err := Some(e);
        case DenyPlain(message) => err := Some(InternalError(message));
        case DenyDefault => err := Some(ACCESS_DENIED);
      }
    }

    method AccessGranted()
      modifies this
      ensures err == if grantClears then None else old(err)
    {
      if grantClears {
        err := None;
      }
    }

    /** Runs one validator on this access object. */
    method Run(v: Validator) returns (panic: Option<string>)
      modifies this
      ensures err == DecideAll(old(err), v.decisions, grantClears)
      ensures panic == v.panic
    {
      for i := 0 to |v.decisions|
        invariant DecideAll(err, v.decisions[i..], grantClears) == DecideAll(old(err), v.decisions, grantClears)
      {
        assert v.decisions[i..][1..] == v.decisions[i + 1..];
        if v.decisions[i].Grant? {
          AccessGranted();
        } else {
          AccessDenied(v.decisions[i]);
        }
      }
      panic := v.panic;
    }
  }

  // ---- the chain ----

  datatype ChainResult = Passed | Refused(index: nat, err: Err) | Crashed(index: nat, message: string)

  /** Validators run in order, from index `i` on, up to the first panic or the first error left. */
  function Chain(vs: seq<Validator>, i: nat, err: Option<Err>, grantClears: bool): (r: ChainResult)
    requires i <= |vs|
    ensures !r.Passed? ==> i <= r.index < |vs|
    decreases |vs| - i
  {
    if i == |vs| then Passed
    else
      var after := DecideAll(err, vs[i].decisions, grantClears);
      if vs[i].panic.Some? then Crashed(i, vs[i].panic.value)
      else match after
        case Some(e) => Refused(i, e)
        case None => Chain(vs, i + 1, None, grantClears)
  }

  method RunChain(access: Access, vs: seq<Validator>) returns (r: ChainResult, ran: nat)
    modifies access
    ensures r == Chain(vs, 0, old(access.err), access.grantClears)
    ensures ran == if r.Passed? then |vs| else r.index + 1
    ensures r.Refused? ==> access.err == Some(r.err)
    ensures r.Passed? && old(access.err) == None ==> access.err == None
  {
    for i := 0 to |vs|
      invariant Chain(vs, i, access.err, access.grantClears) == Chain(vs, 0, old(access.err), access.grantClears)
      invariant i > 0 || old(access.err) == None ==> access.err == None
    {
      var panic := access.Run(vs[i]);
      if panic.Some? {
        return Crashed(i, panic.value), i + 1;
      }
      if access.err.Some? {
        return Refused(i, access.err.value), i + 1;
      }
    }
    r, ran := Passed, |vs|;
  }

  /** A validator that leaves no error when it starts without one. */
  predicate Silent(v: Validator, grantClears: bool) {
    v.panic == None && DecideAll(None, v.decisions, grantClears) == None
  }

  /** The chain passes when every validator is silent, and stops exactly at the first that is not. */
  lemma {:induction false} ChainStopsAtFirst(vs: seq<Validator>, i: nat, grantClears: bool)
    requires i <= |vs|
    ensures var r := Chain(vs, i, None, grantClears);
      && (r.Passed? <==> forall k | i <= k < |vs| :: Silent(vs[k], grantClears))
      && (!r.Passed? ==> i <= r.index < |vs| && !Silent(vs[r.index], grantClears)
                         && forall k | i <= k < r.index :: Silent(vs[k], grantClears))
      && (r.Crashed? ==> vs[r.index].panic == Some(r.message))
      && (r.Refused? ==> DecideAll(None, vs[r.index].decisions, grantClears) == Some(r.err))
    decreases |vs| - i
  {
    if i < |vs| && Silent(vs[i], grantClears) {
      ChainStopsAtFirst(vs, i + 1, grantClears);
    }
  }

  // ---- the gate and the handler ----

  datatype Resource = Resource(name: string, internal_: bool, public_: bool)

  datatype TokenAnswer = Processed(token: string) | Rejected | TokenPanic(message: string)

  datatype Permission = Permitted | NotPermitted | PermissionPanic(message: string)

  /** The authenticator's answer on a token and the authorizer's on the processed one. */
  datatype Auth = Auth(validate: string -> TokenAnswer, permit: string -> Permission)

  datatype Gate = Open | Shut(err: Err) | GateCrashed(message: string)

  function Admission(checked: bool, token: string, auth: Auth): Gate {
    if !checked then Open
    else match auth.validate(token)
      case Rejected => Shut(UNAUTHORIZED)
      case TokenPanic(message) => GateCrashed(message)
      case Processed(processed) => match auth.permit(processed)
        case Permitted => Open
        case NotPermitted => Shut(FORBIDDEN)
        case PermissionPanic(message) => GateCrashed(message)
  }

  /** The token the call carries past the gate: the processed one when there is one. */
  function TokenPast(checked: bool, token: string, auth: Auth): string {
    if checked && auth.validate(token).Processed? then auth.validate(token).token else token
  }

  /** The call being handled: its token, the errors replied and how often the handler ran. */
  class Call {
    var token: string
    var errors: seq<Err>
    var handled: nat

    constructor (t: string)
      ensures token == t && errors == [] && handled == 0
    {
      token, errors, handled := t, [], 0;
    }
  }

  datatype Verdict = Accepted | GateRefused(err: Err) | ValidatorRefused(index: nat, err: Err)

  function ChainVerdict(r: ChainResult): Verdict {
    match r
    case Passed => Accepted
    case Refused(i, e) => ValidatorRefused(i, e)
    case Crashed(i, message) => ValidatorRefused(i, InternalError(message))
  }

  function ProductionVerdict(res: Resource, token: string, auth: Auth, vs: seq<Validator>): Verdict {
    match Admission(!res.internal_ && !res.public_, token, auth)
    case Shut(e) => GateRefused(e)
    case GateCrashed(message) => GateRefused(InternalError(message))
    case Open => ChainVerdict(Chain(vs, 0, None, true))
  }

  /** `handleRequest`: every refusal or panic is replied as one error, and only an accepted call is handled. */
  method HandleRequest(res: Resource, call: Call, access: Access, auth: Auth, vs: seq<Validator>,
                       handlerPanic: Option<string>)
    returns (verdict: Verdict)
    requires access.grantClears && access.err == None
    modifies call, access
    ensures verdict == ProductionVerdict(res, old(call.token), auth, vs)
    ensures call.token == TokenPast(!res.internal_ && !res.public_, old(call.token), auth)
    ensures call.handled == old(call.handled) + if verdict == Accepted then 1 else 0
    ensures call.errors == old(call.errors) +
      (match verdict
       case Accepted => (match handlerPanic case None => [] case Some(m) => [InternalError(m)])
       case GateRefused(e) => [e]
       case ValidatorRefused(_, e) => [e])
  {
    if !res.internal_ && !res.public_ {
      match auth.validate(call.token) {
        case Rejected =>
          call.errors := call.errors + [UNAUTHORIZED];
          return GateRefused(UNAUTHORIZED);
        case TokenPanic(message) =>
          call.errors := call.errors + [InternalError(message)];
          return GateRefused(InternalError(message));
        case Processed(processed) =>
          call.token := processed;
      }
      match auth.permit(call.token) {
        case Permitted =>
        case NotPermitted =>
          call.errors := call.errors + [FORBIDDEN];
          return GateRefused(FORBIDDEN);
        case PermissionPanic(message) =>
          call.errors := call.errors + [InternalError(message)];
          return GateRefused(InternalError(message));
      }
    }
    var r, _ := RunChain(access, vs);
    verdict := ChainVerdict(r);
    if verdict.ValidatorRefused? {
      call.errors := call.errors + [verdict.err];
      return;
    }
    call.handled := call.handled + 1;
    if handlerPanic.Some? {
      call.errors := call.errors + [InternalError(handlerPanic.value)];
    }
  }

  /**
   The handler is called if and only if the resource is INTERNAL or public or passes token
   and permission checks, and every validator leaves no error.
   */
  lemma HandledIff(res: Resource, token: string, auth: Auth, vs: seq<Validator>)
    ensures ProductionVerdict(res, token, auth, vs) == Accepted <==>
      && (res.internal_ || res.public_
          || (auth.validate(token).Processed? && auth.permit(auth.validate(token).token) == Permitted))
      && forall k | 0 <= k < |vs| :: Silent(vs[k], true)
  {
    ChainStopsAtFirst(vs, 0, true);
  }

  /** Which error the gate refuses with: the token's, the permission's, or that of a panic. */
  lemma GateRefusedIff(res: Resource, token: string, auth: Auth, vs: seq<Validator>, e: Err)
    ensures ProductionVerdict(res, token, auth, vs) == GateRefused(e) <==>
      && !res.internal_ && !res.public_
      && match auth.validate(token)
         case Rejected => e == Err(401, "not authorized")
         case TokenPanic(message) => e == Err(500, message)
         case Processed(processed) =>
           match auth.permit(processed)
           case Permitted => false
           case NotPermitted => e == Err(403, "forbidden")
           case PermissionPanic(message) => e == Err(500, message)
  {
    hide Chain;
  }

  /** The handler of an accepted call sees the token the authenticator returned, which the authorizer permitted. */
  lemma HandlerSeesToken(res: Resource, token: string, auth: Auth, vs: seq<Validator>)
    requires ProductionVerdict(res, token, auth, vs) == Accepted
    ensures var seen := TokenPast(!res.internal_ && !res.public_, token, auth);
      if res.internal_ || res.public_ then seen == token
      else auth.validate(token) == Processed(seen) && auth.permit(seen) == Permitted
  {
    hide Chain;
  }

  /** The error of a refusing validator: that of its panic, or of its last decision, if that is a denial. */
  predicate LeavesError(v: Validator, e: Err) {
    match v.panic
    case Some(message) => e == Err(500, message)
    case None =>
      v.decisions != [] && match v.decisions[|v.decisions| - 1]
        case DenyDefault => e == Err(403, "access denied")
        case DenyWith(given) => e == given
        case DenyPlain(message) => e == Err(500, message)
        case Grant => false
  }

  lemma SilentIff(v: Validator)
    ensures Silent(v, true) <==> forall e :: !LeavesError(v, e)
    ensures !Silent(v, true) && v.panic == None ==> LeavesError(v, DecideAll(None, v.decisions, true).value)
  {
    LastDecision(None, v.decisions);
    var n := |v.decisions|;
    match v.panic
    case Some(message) => assert LeavesError(v, Err(500, message));
    case None =>
      if n > 0 && !v.decisions[n - 1].Grant? {
        assert LeavesError(v, DenialError(v.decisions[n - 1]));
      }
  }

  lemma OneError(v: Validator, e: Err, f: Err)
    requires LeavesError(v, e) && LeavesError(v, f)
    ensures e == f
  {
  }

  /** Behind an open gate the first validator that leaves an error refuses with that error. */
  lemma ValidatorRefusedIff(vs: seq<Validator>, i: nat, e: Err)
    ensures ChainVerdict(Chain(vs, 0, None, true)) == ValidatorRefused(i, e) <==>
      i < |vs| && LeavesError(vs[i], e) && forall k | 0 <= k < i :: Silent(vs[k], true)
  {
    ChainStopsAtFirst(vs, 0, true);
    var r := Chain(vs, 0, None, true);
    if r.Passed? {
      forall k | 0 <= k < |vs| ensures !LeavesError(vs[k], e) {
        SilentIff(vs[k]);
      }
    } else {
      ChainAt(vs, 0, r.index, true);
      SilentIff(vs[r.index]);
      hide Chain, DecideAll, Silent;
      if i < |vs| && LeavesError(vs[i], e) {
        SilentIff(vs[i]);
        if i == r.index {
          OneError(vs[i], e, if r.Crashed? then Err(500, r.message) else r.err);
        }
      }
    }
  }

  // ---- the test double ----

  datatype Handler = Handler(name: string, validators: seq<Validator>)

  /** What the test double reports: nothing, success, or an error at an index (-1 and -2 stand for the gate). */
  datatype Report = NoReport | OkReport | ErrReport(index: int, err: Err)

  function FindHandler(handlers: seq<Handler>, name: string): Option<Handler> {
    if handlers == [] then None
    else if handlers[0].name == name then Some(handlers[0])
    else FindHandler(handlers[1..], name)
  }

  function TestReport(res: Resource, token: string, auth: Auth, handlers: seq<Handler>): Report {
    match FindHandler(handlers, res.name)
    case None => NoReport
    case Some(h) =>
      match Admission(!res.public_, token, auth)
      case Shut(e) => ErrReport(if e == UNAUTHORIZED then -1 else -2, e)
      case GateCrashed(_) => NoReport
      case Open =>
        match Chain(h.validators, 0, None, false)
        case Passed => OkReport
        case Refused(i, e) => ErrReport(i, e)
        case Crashed(_, _) => NoReport
  }

  /** `handleAccessForTest`: a missing handler or a panic shows only in the access error. */
  method HandleAccessForTest(res: Resource, call: Call, access: Access, auth: Auth, handlers: seq<Handler>)
    returns (report: Report)
    requires !access.grantClears && access.err == None
    modifies call, access
    ensures report == TestReport(res, old(call.token), auth, handlers)
    ensures report == NoReport ==> access.err.Some?
  {
    var found := None;
    for i := 0 to |handlers|
      invariant found == None && FindHandler(handlers, res.name) == FindHandler(handlers[i..], res.name)
    {
      assert handlers[i..][1..] == handlers[i + 1..];
      if handlers[i].name == res.name {
        found := Some(handlers[i]);
        break;
      }
    }
    if found == None {
      access.AccessDenied(DenyWith(UNAVAILABLE));
      return NoReport;
    }
    if !res.public_ {
      match auth.validate(call.token) {
        case Rejected => return ErrReport(-1, UNAUTHORIZED);
        case TokenPanic(message) =>
          access.AccessDenied(DenyPlain(message));
          return NoReport;
        case Processed(processed) =>
          call.token := processed;
      }
      match auth.permit(call.token) {
        case Permitted =>
        case NotPermitted => return ErrReport(-2, FORBIDDEN);
        case PermissionPanic(message) =>
          access.AccessDenied(DenyPlain(message));
          return NoReport;
      }
    }
    var r, _ := RunChain(access, found.value.validators);
    match r {
      case Passed => report := OkReport;
      case Refused(i, e) => report := ErrReport(i, e);
      case Crashed(_, message) =>
        access.AccessDenied(DenyPlain(message));
        report := NoReport;
    }
  }

  /** The handler that is tested is the first of the resource's name. */
  lemma {:induction false} FoundIsFirst(handlers: seq<Handler>, name: string) returns (i: nat)
    ensures i <= |handlers| && forall k | 0 <= k < i :: handlers[k].name != name
    ensures FindHandler(handlers, name) == if i < |handlers| then Some(handlers[i]) else None
    ensures i < |handlers| ==> handlers[i].name == name
  {
    if handlers == [] || handlers[0].name == name {
      i := 0;
    } else {
      i := FoundIsFirst(handlers[1..], name);
      i := i + 1;
    }
  }

  /** The test double reports what the gate refuses at -1 and -2, a validator's error at its own index. */
  lemma ReportedAt(res: Resource, token: string, auth: Auth, handlers: seq<Handler>, index: int, e: Err)
    requires TestReport(res, token, auth, handlers) == ErrReport(index, e)
    ensures index == -1 <==> !res.public_ && auth.validate(token) == Rejected && e == Err(401, "not authorized")
    ensures index == -2 <==>
      && !res.public_ && auth.validate(token).Processed?
      && auth.permit(auth.validate(token).token) == NotPermitted && e == Err(403, "forbidden")
    ensures index >= 0 ==>
      && FindHandler(handlers, res.name).Some?
      && Chain(FindHandler(handlers, res.name).value.validators, 0, None, false) == Refused(index, e)
    ensures index >= -2
  {
    hide Chain;
  }

  // ---- agreement ----

  predicate HasDenial(ds: seq<Decision>) {
    exists i | 0 <= i < |ds| :: !ds[i].Grant?
  }

  /** Denies, but takes it back with a final grant: the only thing the two access objects see differently. */
  predicate TakesBack(ds: seq<Decision>) {
    HasDenial(ds) && ds[|ds| - 1].Grant?
  }

  /** Production keeps what the last decision says; the test double keeps the last denial. */
  lemma {:induction false} LastDecision(err: Option<Err>, ds: seq<Decision>)
    ensures DecideAll(err, ds, true) == if ds == [] then err else Decide(None, ds[|ds| - 1], true)
    ensures !HasDenial(ds) ==> DecideAll(err, ds, false) == err
    ensures HasDenial(ds) ==> DecideAll(err, ds, false).Some?
    ensures ds != [] && !ds[|ds| - 1].Grant? ==> DecideAll(err, ds, false) == DecideAll(err, ds, true)
    decreases |ds|
  {
    if ds != [] {
      LastDecision(Decide(err, ds[0], true), ds[1..]);
      LastDecision(Decide(err, ds[0], false), ds[1..]);
      assert HasDenial(ds) <==> !ds[0].Grant? || HasDenial(ds[1..]) by {
        assert forall i | 0 < i < |ds| :: ds[i] == ds[1..][i - 1];
        assert forall i | 0 <= i < |ds| - 1 :: ds[1..][i] == ds[i + 1];
      }
    }
  }

  lemma SilentInBoth(v: Validator)
    ensures Silent(v, false) <==> Silent(v, true) && !TakesBack(v.decisions)
    ensures !Silent(v, true) && v.panic == None ==>
        DecideAll(None, v.decisions, true) == DecideAll(None, v.decisions, false)
  {
    LastDecision(None, v.decisions);
  }

  /**
   The two chains give the same result if and only if no validator that production lets pass,
   before the first one it stops at, denies and then takes it back.
   */
  lemma ChainsAgreeIff(vs: seq<Validator>)
    ensures var r := Chain(vs, 0, None, true);
      var stop := if r.Passed? then |vs| else r.index;
      Chain(vs, 0, None, false) == r <==> forall k | 0 <= k < stop :: !TakesBack(vs[k].decisions)
  {
    ChainStopsAtFirst(vs, 0, true);
    ChainStopsAtFirst(vs, 0, false);
    var r, t := Chain(vs, 0, None, true), Chain(vs, 0, None, false);
    var stop := if r.Passed? then |vs| else r.index;
    forall k | 0 <= k < |vs|
      ensures Silent(vs[k], false) <==> Silent(vs[k], true) && !TakesBack(vs[k].decisions)
    {
      SilentInBoth(vs[k]);
    }
    if forall k | 0 <= k < stop :: !TakesBack(vs[k].decisions) {
      if r.Passed? {
      } else {
        assert !Silent(vs[r.index], false);
        SilentInBoth(vs[r.index]);
        ChainAt(vs, 0, r.index, true);
        ChainAt(vs, 0, r.index, false);
      }
    } else {
      var k :| 0 <= k < stop && TakesBack(vs[k].decisions);
      assert !Silent(vs[k], false);
    }
  }

  /** The result of a chain whose first non-silent validator is known. */
  lemma {:induction false} ChainAt(vs: seq<Validator>, i: nat, j: nat, grantClears: bool)
    requires i <= j < |vs| && !Silent(vs[j], grantClears)
    requires forall k | i <= k < j :: Silent(vs[k], grantClears)
    ensures Chain(vs, i, None, grantClears) ==
      if vs[j].panic.Some? then Crashed(j, vs[j].panic.value)
      else Refused(j, DecideAll(None, vs[j].decisions, grantClears).value)
    decreases j - i
  {
    if i < j {
      ChainAt(vs, i + 1, j, grantClears);
    }
  }

  predicate Agrees(verdict: Verdict, report: Report) {
    match verdict
    case Accepted => report == OkReport
    case GateRefused(e) => report == ErrReport(if e == UNAUTHORIZED then -1 else -2, e)
    case ValidatorRefused(i, e) => report == ErrReport(i, e)
  }

  /** Production ends without a panic, and no validator takes a denial back before it ends. */
  predicate Comparable(vs: seq<Validator>) {
    var r := Chain(vs, 0, None, true);
    !r.Crashed? && forall k | 0 <= k < (if r.Passed? then |vs| else r.index) :: !TakesBack(vs[k].decisions)
  }

  /** Behind an open gate the two agree exactly on comparable chains. */
  lemma {:induction false} OpenAgreesIff(vs: seq<Validator>)
    ensures var report := match Chain(vs, 0, None, false)
        case Passed => OkReport case Refused(i, e) => ErrReport(i, e) case Crashed(_, _) => NoReport;
      Agrees(ChainVerdict(Chain(vs, 0, None, true)), report) <==> Comparable(vs)
  {
    ChainsAgreeIff(vs);
    ChainStopsAtFirst(vs, 0, true);
    ChainStopsAtFirst(vs, 0, false);
    var r, t := Chain(vs, 0, None, true), Chain(vs, 0, None, false);
    hide Chain;
    if r.Crashed? && t.Refused? {
      assert t.index == r.index ==> vs[t.index].panic.Some?;
      RefusedIsNoPanic(vs, t);
    }
  }

  /** A validator whose error is reported has not panicked. */
  lemma RefusedIsNoPanic(vs: seq<Validator>, t: ChainResult)
    requires t == Chain(vs, 0, None, false) && t.Refused?
    ensures vs[t.index].panic == None
  {
    ChainStopsAtFirst(vs, 0, false);
    ChainAt(vs, 0, t.index, false);
  }

  /**
   For a declared, non-INTERNAL resource the test double reports success exactly when
   production accepts, and otherwise the same error at the same validator (or at the gate),
   if and only if the gate refuses, or is open and no validator panics where production
   stops or takes a denial back before.  A panic never makes the test double report.
   */
  lemma {:induction false} TestAgreesIff(res: Resource, token: string, auth: Auth, handlers: seq<Handler>, h: Handler)
    requires FindHandler(handlers, res.name) == Some(h) && !res.internal_
    ensures var gate := Admission(!res.public_, token, auth);
      Agrees(ProductionVerdict(res, token, auth, h.validators), TestReport(res, token, auth, handlers)) <==>
        gate.Shut? || (gate.Open? && Comparable(h.validators))
  {
    OpenAgreesIff(h.validators);
    hide Chain, Comparable;
  }

  /** With at most one decision per validator only a panic tells them apart, and success is always the same. */
  lemma {:induction false} OneDecisionAgrees(res: Resource, token: string, auth: Auth, handlers: seq<Handler>,
                                             h: Handler)
    requires FindHandler(handlers, res.name) == Some(h) && !res.internal_
    requires forall k | 0 <= k < |h.validators| :: |h.validators[k].decisions| <= 1
    ensures var verdict, report := ProductionVerdict(res, token, auth, h.validators),
        TestReport(res, token, auth, handlers);
      var gate := Admission(!res.public_, token, auth);
      && (verdict == Accepted <==> report == OkReport)
      && (Agrees(verdict, report) <==>
          gate.Shut? || (gate.Open? && !Chain(h.validators, 0, None, true).Crashed?))
  {
    TestAgreesIff(res, token, auth, handlers, h);
    ChainStopsAtFirst(h.validators, 0, true);
    ChainStopsAtFirst(h.validators, 0, false);
    assert forall k | 0 <= k < |h.validators| :: !TakesBack(h.validators[k].decisions);
    forall k | 0 <= k < |h.validators|
      ensures Silent(h.validators[k], false) <==> Silent(h.validators[k], true)
    {
      SilentInBoth(h.validators[k]);
    }
    hide Chain, TakesBack, Silent;
  }

  /**
   On INTERNAL resources, which are never public, they agree only if the token happens to pass
   the gate that the test double applies there and production does not.
   */
  lemma {:induction false} InternalAgreesIff(res: Resource, token: string, auth: Auth, handlers: seq<Handler>,
                                             h: Handler)
    requires FindHandler(handlers, res.name) == Some(h) && res.internal_ && !res.public_
    ensures Agrees(ProductionVerdict(res, token, auth, h.validators), TestReport(res, token, auth, handlers)) <==>
      Admission(true, token, auth) == Open && Comparable(h.validators)
  {
    OpenAgreesIff(h.validators);
    hide Chain, Comparable;
  }
}
