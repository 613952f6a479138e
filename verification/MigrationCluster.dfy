/**
 Any number of replicas running `Init` (pkg/service/base-service.go): take the
 "api-migration" lock, read the recorded version, run and record the missing versions, give
 the lock back.  Each database transaction and each call of a version's own `Migrate` is one
 atomic step, the steps of all replicas interleave freely, and a replica may stop anywhere.
 */
module MigrationCluster {
  import opened Basics
  import L = LeaseLock
  import opened Migrations

  type Replica = L.Client

  /** Where a replica stands in `Init` and in the loop of `Migrate`. */
  datatype Pc =
    | Waiting
    | Entered
    | Looping(schema: int, next: nat)
    | Applied(schema: int, next: nat)
    | Leaving(failed: bool)
    | Finished
    | Failed
    | Stopped

  /** The replicas' configuration: each has a service, its own list of versions and the key of its process. */
  datatype Config = Config(service: Replica -> string, list: Replica -> seq<int>, keys: L.Client -> L.Key)

  datatype State = State(lock: L.State, recorded: map<string, seq<int>>, pc: map<Replica, Pc>)

  function Rec(s: State, service: string): seq<int> {
    if service in s.recorded then s.recorded[service] else []
  }

  function PcOf(s: State, r: Replica): Pc {
    if r in s.pc then s.pc[r] else Waiting
  }

  datatype Action =
    | Pass(now: nat)
    | Try(r: Replica, stamped: nat, sees: bool, saves: bool)
    | Read(r: Replica, sees: bool)
    | Visit(r: Replica, succeeds: bool)
    | Save(r: Replica, succeeds: bool)
    | Release(r: Replica)
    | Stop(r: Replica)

  predicate InCritical(pc: Pc) {
    pc.Entered? || pc.Looping? || pc.Applied? || pc.Leaving?
  }

  ghost predicate Enabled(s: State, a: Action, c: Config) {
    match a
    case Pass(now) => L.Enabled(s.lock, L.Wait(now))
    case Try(r, stamped, sees, saves) => PcOf(s, r) == Waiting && L.Enabled(s.lock, L.Enter(r, stamped, sees, saves))
    case Read(r, _) => PcOf(s, r) == Entered
    case Visit(r, _) => PcOf(s, r).Looping?
    case Save(r, _) => PcOf(s, r).Applied? && PcOf(s, r).next < |c.list(r)|
    case Release(r) => PcOf(s, r).Leaving? && L.Enabled(s.lock, L.Leave(r))
    case Stop(r) => InCritical(PcOf(s, r)) && L.Enabled(s.lock, L.Crash(r))
  }

  ghost function After(s: State, a: Action, c: Config): State
    requires Enabled(s, a, c)
  {
    match a
    case Pass(now) => s.(lock := L.After(s.lock, L.Wait(now), c.keys))
    case Try(r, stamped, sees, saves) =>
      var lock := L.After(s.lock, L.Enter(r, stamped, sees, saves), c.keys);
      s.(lock := lock, pc := if r in lock.inside then s.pc[r := Entered] else s.pc)
    case Read(r, sees) =>
      s.(pc := s.pc[r := Looping(ReadVersion(Rec(s, c.service(r)), sees), 0)])
    case Visit(r, succeeds) =>
      var Looping(schema, i) := PcOf(s, r);
      if i >= |c.list(r)| then s.(pc := s.pc[r := Leaving(false)])
      else if !(schema < c.list(r)[i]) then s.(pc := s.pc[r := Looping(schema, i + 1)])
      else if succeeds then s.(pc := s.pc[r := Applied(schema, i)])
      else s.(lock := s.lock.(inside := s.lock.inside - {r}), pc := s.pc[r := Stopped])
    case Save(r, succeeds) =>
      var Applied(schema, i) := PcOf(s, r);
      if succeeds then
        s.(recorded := s.recorded[c.service(r) := Rec(s, c.service(r)) + [c.list(r)[i]]],
           pc := s.pc[r := Looping(schema, i + 1)])
      else s.(pc := s.pc[r := Leaving(true)])
    case Release(r) =>
      s.(lock := L.After(s.lock, L.Leave(r), c.keys),
         pc := s.pc[r := if PcOf(s, r).failed then Failed else Finished])
    case Stop(r) =>
      s.(lock := L.After(s.lock, L.Crash(r), c.keys), pc := s.pc[r := Stopped])
  }

  // ---- the environment's obligations ----

  /** All lists of one service are prefixes of one strictly ascending list of positive indexes. */
  ghost predicate ListsAgree(c: Config, master: string -> seq<int>) {
    && (forall s :: Ascending(master(s)))
    && forall r: Replica :: c.list(r) <= master(c.service(r))
  }

  /** The read of the recorded version succeeds, or nothing is recorded that it could miss. */
  ghost predicate ReadsWell(s: State, a: Action, c: Config) {
    a.Read? && !a.sees ==> Rec(s, c.service(a.r)) == []
  }

  ghost predicate IsRun(run: seq<State>, actions: seq<Action>, c: Config, master: string -> seq<int>) {
    && |run| == |actions| + 1
    && run[0].lock.inside == map[]
    && run[0].pc == map[]
    && (forall service :: Rec(run[0], service) <= master(service))
    && forall i | 0 <= i < |actions| :: Enabled(run[i], actions[i], c) && run[i + 1] == After(run[i], actions[i], c)
  }

  // ---- the invariant ----

  function Max(a: nat, b: nat): nat {
    if a > b then a else b
  }

  /** `schema` was read when `base` versions were recorded; now those below `i` are too. */
  ghost predicate Reached(versions: seq<int>, recorded: seq<int>, schema: int, i: nat, base: nat) {
    && base <= |versions| && i <= |versions|
    && schema == Top(versions, base)
    && recorded == versions[..Max(base, i)]
  }

  ghost predicate LoopInv(versions: seq<int>, recorded: seq<int>, schema: int, i: nat) {
    exists base: nat :: Reached(versions, recorded, schema, i, base)
  }

  ghost predicate ReplicaInv(pc: Pc, list: seq<int>, versions: seq<int>, recorded: seq<int>) {
    match pc
    case Looping(schema, i) => i <= |list| && LoopInv(versions, recorded, schema, i)
    case Applied(schema, i) => i < |list| && schema < list[i] && LoopInv(versions, recorded, schema, i)
    case Leaving(failed) => failed || list <= recorded
    case Finished => list <= recorded
    case _ => true
  }

  ghost predicate Inv(s: State, c: Config, master: string -> seq<int>) {
    && L.Exclusive(s.lock, c.keys)
    && (forall r: Replica :: r in s.lock.inside <==> InCritical(PcOf(s, r)))
    && (forall service :: Rec(s, service) <= master(service))
    && forall r: Replica :: ReplicaInv(PcOf(s, r), c.list(r), master(c.service(r)), Rec(s, c.service(r)))
  }

  /** A visited version is pending exactly when it lies beyond those recorded at the start. */
  lemma PendingIffBeyond(versions: seq<int>, schema: int, i: nat, base: nat)
    requires Ascending(versions) && base <= |versions| && i < |versions| && schema == Top(versions, base)
    ensures schema < versions[i] <==> i >= base
  {
    if i < base - 1 { assert versions[i] < versions[base - 1]; }
    if i >= base > 0 { assert versions[base - 1] < versions[i]; }
  }

  lemma ReadStarts(versions: seq<int>, recorded: seq<int>)
    requires Ascending(versions) && recorded <= versions
    ensures LoopInv(versions, recorded, Highest(recorded), 0)
  {
    HighestIsTop(versions, |recorded|);
    assert versions[..|recorded|] == recorded;
    assert Reached(versions, recorded, Highest(recorded), 0, |recorded|);
  }

  lemma VisitSkips(versions: seq<int>, recorded: seq<int>, schema: int, i: nat)
    requires Ascending(versions) && LoopInv(versions, recorded, schema, i) && i < |versions| && !(schema < versions[i])
    ensures LoopInv(versions, recorded, schema, i + 1)
  {
    var base: nat :| Reached(versions, recorded, schema, i, base);
    PendingIffBeyond(versions, schema, i, base);
    assert Reached(versions, recorded, schema, i + 1, base);
  }

  lemma SaveExtends(versions: seq<int>, recorded: seq<int>, schema: int, i: nat)
    requires Ascending(versions) && LoopInv(versions, recorded, schema, i) && i < |versions| && schema < versions[i]
    ensures LoopInv(versions, recorded + [versions[i]], schema, i + 1)
    ensures recorded + [versions[i]] <= versions
  {
    var base: nat :| Reached(versions, recorded, schema, i, base);
    PendingIffBeyond(versions, schema, i, base);
    assert recorded + [versions[i]] == versions[..i + 1];
    assert Reached(versions, recorded + [versions[i]], schema, i + 1, base);
  }

  lemma LoopEnds(list: seq<int>, versions: seq<int>, recorded: seq<int>, schema: int)
    requires list <= versions && LoopInv(versions, recorded, schema, |list|)
    ensures list <= recorded
  {
    var base: nat :| Reached(versions, recorded, schema, |list|, base);
    assert versions[..Max(base, |list|)][..|list|] == list;
  }

  /** A step of `r` that changes neither the lock nor what is recorded. */
  lemma LocalStep(s: State, r: Replica, pc: Pc, c: Config, master: string -> seq<int>)
    requires Inv(s, c, master) && InCritical(PcOf(s, r)) && InCritical(pc)
    requires ReplicaInv(pc, c.list(r), master(c.service(r)), Rec(s, c.service(r)))
    ensures Inv(s.(pc := s.pc[r := pc]), c, master)
  {
    var t := s.(pc := s.pc[r := pc]);
    forall q: Replica
      ensures PcOf(t, q) == if q == r then pc else PcOf(s, q)
      ensures Rec(t, c.service(q)) == Rec(s, c.service(q))
    {
    }
    forall service ensures Rec(t, service) <= master(service) {
      assert Rec(t, service) == Rec(s, service);
    }
  }

  /** A step of `r` that only touches the lock and takes `r` out of it. */
  lemma LeaveStep(s: State, r: Replica, lock: L.State, pc: Pc, c: Config, master: string -> seq<int>)
    requires Inv(s, c, master) && InCritical(PcOf(s, r)) && !InCritical(pc)
    requires L.Exclusive(lock, c.keys) && lock.inside == s.lock.inside - {r}
    requires ReplicaInv(pc, c.list(r), master(c.service(r)), Rec(s, c.service(r)))
    ensures Inv(s.(lock := lock, pc := s.pc[r := pc]), c, master)
  {
    var t := s.(lock := lock, pc := s.pc[r := pc]);
    forall q: Replica
      ensures PcOf(t, q) == if q == r then pc else PcOf(s, q)
      ensures Rec(t, c.service(q)) == Rec(s, c.service(q))
    {
    }
    forall service ensures Rec(t, service) <= master(service) {
      assert Rec(t, service) == Rec(s, service);
    }
  }

  lemma SaveStep(s: State, r: Replica, c: Config, master: string -> seq<int>)
    requires Inv(s, c, master) && ListsAgree(c, master) && Enabled(s, Save(r, true), c)
    ensures Inv(After(s, Save(r, true), c), c, master)
  {
    var t := After(s, Save(r, true), c);
    var Applied(schema, i) := PcOf(s, r);
    var mine := c.service(r);
    var versions := master(mine);
    assert c.list(r) <= versions && versions[i] == c.list(r)[i];
    SaveExtends(versions, Rec(s, mine), schema, i);
    forall service ensures Rec(t, service) <= master(service) && Rec(s, service) <= Rec(t, service) {
      assert service != mine ==> Rec(t, service) == Rec(s, service);
    }
    forall q: Replica
      ensures q in t.lock.inside <==> InCritical(PcOf(t, q))
      ensures ReplicaInv(PcOf(t, q), c.list(q), master(c.service(q)), Rec(t, c.service(q)))
    {
      if q != r {
        assert PcOf(t, q) == PcOf(s, q);
        assert ReplicaInv(PcOf(s, q), c.list(q), master(c.service(q)), Rec(s, c.service(q)));
        assert Rec(s, c.service(q)) <= Rec(t, c.service(q));
      }
    }
  }

  lemma TryStep(s: State, r: Replica, stamped: nat, sees: bool, saves: bool, c: Config, master: string -> seq<int>)
    requires Inv(s, c, master) && Enabled(s, Try(r, stamped, sees, saves), c) && L.Prompt(s.lock)
    ensures Inv(After(s, Try(r, stamped, sees, saves), c), c, master)
  {
    L.ExclusionStep(s.lock, L.Enter(r, stamped, sees, saves), c.keys);
    var t := After(s, Try(r, stamped, sees, saves), c);
    forall q: Replica
      ensures PcOf(t, q) == PcOf(s, q) || (q == r && PcOf(t, q) == Entered)
      ensures Rec(t, c.service(q)) == Rec(s, c.service(q))
      ensures q in t.lock.inside <==> InCritical(PcOf(t, q))
    {
    }
    forall service ensures Rec(t, service) <= master(service) {
      assert Rec(t, service) == Rec(s, service);
    }
  }

  lemma VisitStep(s: State, r: Replica, succeeds: bool, c: Config, master: string -> seq<int>)
    requires Inv(s, c, master) && ListsAgree(c, master) && Enabled(s, Visit(r, succeeds), c)
    ensures Inv(After(s, Visit(r, succeeds), c), c, master)
  {
    var Looping(schema, i) := PcOf(s, r);
    var list, versions, recorded := c.list(r), master(c.service(r)), Rec(s, c.service(r));
    assert list <= versions;
    assert ReplicaInv(PcOf(s, r), list, versions, recorded);
    if i >= |list| {
      LoopEnds(list, versions, recorded, schema);
      LocalStep(s, r, Leaving(false), c, master);
    } else {
      assert list[i] == versions[i];
      if !(schema < list[i]) {
        VisitSkips(versions, recorded, schema, i);
        LocalStep(s, r, Looping(schema, i + 1), c, master);
      } else if succeeds {
        LocalStep(s, r, Applied(schema, i), c, master);
      } else {
        LeaveStep(s, r, s.lock.(inside := s.lock.inside - {r}), Stopped, c, master);
      }
    }
  }

  lemma PassStep(s: State, now: nat, c: Config, master: string -> seq<int>)
    requires Inv(s, c, master) && Enabled(s, Pass(now), c) && L.Prompt(s.lock)
    ensures Inv(After(s, Pass(now), c), c, master)
  {
    L.ExclusionStep(s.lock, L.Wait(now), c.keys);
    var t := After(s, Pass(now), c);
    forall q: Replica ensures PcOf(t, q) == PcOf(s, q) && Rec(t, c.service(q)) == Rec(s, c.service(q)) {
    }
    forall service ensures Rec(t, service) <= master(service) {
      assert Rec(t, service) == Rec(s, service);
    }
  }

  lemma {:induction false} ActionKeepsInv(s: State, a: Action, c: Config, master: string -> seq<int>)
    requires ListsAgree(c, master) && Inv(s, c, master) && Enabled(s, a, c) && L.Prompt(s.lock)
    requires ReadsWell(s, a, c)
    ensures Inv(After(s, a, c), c, master)
  {
    match a
    case Pass(now) => PassStep(s, now, c, master);
    case Try(r, stamped, sees, saves) => TryStep(s, r, stamped, sees, saves, c, master);
    case Read(r, sees) =>
      ReadStarts(master(c.service(r)), Rec(s, c.service(r)));
      LocalStep(s, r, Looping(Highest(Rec(s, c.service(r))), 0), c, master);
    case Visit(r, succeeds) => VisitStep(s, r, succeeds, c, master);
    case Save(r, succeeds) =>
      if succeeds {
        SaveStep(s, r, c, master);
      } else {
        LocalStep(s, r, Leaving(true), c, master);
      }
    case Release(r) =>
      L.ExclusionStep(s.lock, L.Leave(r), c.keys);
      assert ReplicaInv(PcOf(s, r), c.list(r), master(c.service(r)), Rec(s, c.service(r)));
      LeaveStep(s, r, L.After(s.lock, L.Leave(r), c.keys), if PcOf(s, r).failed then Failed else Finished, c, master);
    case Stop(r) =>
      L.ExclusionStep(s.lock, L.Crash(r), c.keys);
      LeaveStep(s, r, L.After(s.lock, L.Crash(r), c.keys), Stopped, c, master);
  }

  lemma {:induction false} RunKeepsInv(run: seq<State>, actions: seq<Action>, c: Config, master: string -> seq<int>,
                                       n: nat)
    requires ListsAgree(c, master) && IsRun(run, actions, c, master) && n < |run|
    requires forall i | 0 <= i < n :: L.Prompt(run[i].lock)
    requires forall i | 0 <= i < n :: ReadsWell(run[i], actions[i], c)
    ensures Inv(run[n], c, master)
  {
    if n > 0 {
      RunKeepsInv(run, actions, c, master, n - 1);
      ActionKeepsInv(run[n - 1], actions[n - 1], c, master);
      assert run[(n - 1) + 1] == After(run[n - 1], actions[n - 1], c);
    }
  }

  /**
   In every run of any number of replicas whose holders finish within the lease and whose
   reads succeed (unless nothing is recorded yet), the recorded versions of a service are
   always a prefix of its list, none is recorded twice, every replica that finished has its
   whole list recorded, and no `Unlock` finds an invalid state.
   */
  lemma MigrationsAreExact(run: seq<State>, actions: seq<Action>, c: Config, master: string -> seq<int>, n: nat)
    requires ListsAgree(c, master) && IsRun(run, actions, c, master) && n < |run|
    requires forall i | 0 <= i < n :: L.Prompt(run[i].lock)
    requires forall i | 0 <= i < n :: ReadsWell(run[i], actions[i], c)
    ensures forall service :: Rec(run[n], service) <= master(service)
    ensures forall service, i, j | 0 <= i < j < |Rec(run[n], service)| ::
        Rec(run[n], service)[i] != Rec(run[n], service)[j]
    ensures forall r: Replica | PcOf(run[n], r) == Finished :: c.list(r) <= Rec(run[n], c.service(r))
    ensures forall r: Replica | PcOf(run[n], r).Leaving? :: !L.InvalidState(run[n].lock.row, c.keys(r))
  {
    RunKeepsInv(run, actions, c, master, n);
    forall service, i, j | 0 <= i < j < |Rec(run[n], service)|
      ensures Rec(run[n], service)[i] != Rec(run[n], service)[j]
    {
      assert Rec(run[n], service) <= master(service);
      assert master(service)[i] < master(service)[j];
    }
    forall r: Replica | PcOf(run[n], r) == Finished ensures c.list(r) <= Rec(run[n], c.service(r)) {
      assert ReplicaInv(PcOf(run[n], r), c.list(r), master(c.service(r)), Rec(run[n], c.service(r)));
    }
  }

  // ---- the lock is given back ----

  /**
   A replica that leaves can release, and then the row is unlocked at that very moment, nobody is
   inside, and it has finished if it did not fail; whoever waits enters with the next attempt
   that reads and writes, however much of the lease is left.
   */
  lemma ReleaseFrees(s: State, r: Replica, c: Config, master: string -> seq<int>)
    requires Inv(s, c, master) && PcOf(s, r).Leaving?
    ensures Enabled(s, Release(r), c)
    ensures var t := After(s, Release(r), c);
      && t.lock.row == s.lock.row.(unlockedOn := Some(s.lock.now)) && t.lock.inside == map[]
      && t.lock.now == s.lock.now && t.recorded == s.recorded
      && PcOf(t, r) == (if PcOf(s, r).failed then Failed else Finished)
      && (forall q: Replica | q != r :: PcOf(t, q) == PcOf(s, q))
      && forall q: Replica, stamped | PcOf(t, q) == Waiting && t.lock.now <= stamped ::
           Enabled(t, Try(q, stamped, true, true), c)
           && PcOf(After(t, Try(q, stamped, true, true), c), q) == Entered
  {
    assert r in s.lock.inside;
    assert s.lock.row == L.Row(s.lock.inside[r], None, c.keys(r));
    var t := After(s, Release(r), c);
    forall q: Replica ensures q !in t.lock.inside {
      assert q in s.lock.inside ==> q == r;
    }
  }

  /** A replica that just stops leaves the row as it is: whoever tries later gets in only once its lease is over. */
  lemma StopKeepsLock(s: State, r: Replica, c: Config, master: string -> seq<int>, q: Replica, later: nat,
                      stamped: nat)
    requires Inv(s, c, master) && InCritical(PcOf(s, r)) && PcOf(s, q) == Waiting && s.lock.now <= later <= stamped
    ensures Enabled(s, Stop(r), c)
    ensures var t := After(s, Stop(r), c);
      && t.lock.row == s.lock.row && t.lock.row.unlockedOn == None && t.lock.inside == map[]
      && PcOf(t, r) == Stopped && t.recorded == s.recorded
      && Enabled(t, Pass(later), c)
      && var u := After(t, Pass(later), c);
         && Enabled(u, Try(q, stamped, true, true), c)
         && (PcOf(After(u, Try(q, stamped, true, true), c), q) == Entered
             <==> later >= s.lock.row.lockedOn + 300_000_000_000)
  {
    assert r in s.lock.inside;
    assert s.lock.row == L.Row(s.lock.inside[r], None, c.keys(r));
    var t := After(s, Stop(r), c);
    forall p: Replica ensures p !in t.lock.inside {
      assert p in s.lock.inside ==> p == r;
    }
  }

  // ---- the steps of one replica are the loop of `Migrate` ----

  /** The actions lead from one state to the other, each enabled in its turn. */
  ghost predicate Leads(s: State, actions: seq<Action>, c: Config, t: State)
    decreases |actions|
  {
    if actions == [] then s == t
    else Enabled(s, actions[0], c) && Leads(After(s, actions[0], c), actions[1..], c, t)
  }

  function EndOf(r: Result): Pc {
    match r case Completed => Leaving(false) case SaveError => Leaving(true) case Panicked => Stopped
  }

  lemma LeadsThrough(s: State, a: Action, mid: State, actions: seq<Action>, c: Config, t: State)
    requires Enabled(s, a, c) && mid == After(s, a, c) && Leads(mid, actions, c, t)
    ensures Leads(s, [a] + actions, c, t)
  {
    hide After;
    assert ([a] + actions)[1..] == actions;
  }

  /** One visited item: skipped, applied and recorded, or the end of the loop. */
  lemma ItemSteps(s: State, r: Replica, item: Item, i: nat, schema: int, c: Config)
    returns (actions: seq<Action>, t: State)
    requires PcOf(s, r) == Looping(schema, i) && i < |c.list(r)| && c.list(r)[i] == item.index
    ensures Leads(s, actions, c, t)
    ensures PcOf(t, r) ==
      if schema < item.index && !item.migrates then Stopped
      else if schema < item.index && !item.saves then Leaving(true)
      else Looping(schema, i + 1)
    ensures Rec(t, c.service(r)) == Rec(s, c.service(r)) +
      if schema < item.index && item.migrates && item.saves then [item.index] else []
    ensures forall a | a in actions :: a.Visit? || a.Save?
    ensures t.lock.row == s.lock.row
  {
    var visit := Visit(r, item.migrates);
    t := After(s, visit, c);
    actions := [visit];
    if schema < item.index && item.migrates {
      var save := Save(r, item.saves);
      var u := After(t, save, c);
      LeadsThrough(t, save, u, [], c, u);
      LeadsThrough(s, visit, t, [save], c, u);
      actions, t := [visit, save], u;
      assert [visit] + [save] == actions;
    } else {
      LeadsThrough(s, visit, t, [], c, t);
    }
  }

  lemma {:induction false} LeadsOn(s: State, first: seq<Action>, mid: State, rest: seq<Action>, c: Config, t: State)
    requires Leads(s, first, c, mid) && Leads(mid, rest, c, t)
    ensures Leads(s, first + rest, c, t)
    decreases |first|
  {
    hide After, Enabled;
    if first == [] {
      assert first + rest == rest;
    } else {
      LeadsOn(After(s, first[0], c), first[1..], mid, rest, c, t);
      assert (first + rest)[1..] == first[1..] + rest;
    }
  }

  /** Past the last item the loop ends. */
  lemma LastVisit(s: State, r: Replica, schema: int, c: Config) returns (t: State)
    requires PcOf(s, r) == Looping(schema, |c.list(r)|)
    ensures Leads(s, [Visit(r, true)], c, t) && PcOf(t, r) == Leaving(false)
    ensures Rec(t, c.service(r)) == Rec(s, c.service(r)) && t.lock.row == s.lock.row
  {
    t := After(s, Visit(r, true), c);
    LeadsThrough(s, Visit(r, true), t, [], c, t);
  }

  lemma RunFrom(items: seq<Item>, i: nat, schema: int)
    requires i <= |items|
    ensures i == |items| ==> Run(items[i..], schema) == ([], Completed)
    ensures i < |items| ==>
      Run(items[i..], schema) ==
        var (rest, r) := Run(items[i + 1..], schema);
        if items[i].index <= schema then (rest, r)
        else if !items[i].migrates then ([], Panicked)
        else if !items[i].saves then ([], SaveError)
        else ([items[i].index] + rest, r)
  {
    if i < |items| { assert items[i..][1..] == items[i + 1..]; }
  }

  /**
   Left alone, a replica in the loop records exactly the versions `Migrate` records from
   there, and ends as `Migrate` does.
   */
  lemma {:induction false} LoopIsMigrate(s: State, r: Replica, items: seq<Item>, i: nat, schema: int, c: Config)
    returns (actions: seq<Action>, t: State)
    requires c.list(r) == Indexes(items) && i <= |items| && PcOf(s, r) == Looping(schema, i)
    ensures Leads(s, actions, c, t)
    ensures Rec(t, c.service(r)) == Rec(s, c.service(r)) + Run(items[i..], schema).0
    ensures PcOf(t, r) == EndOf(Run(items[i..], schema).1)
    ensures forall a | a in actions :: a.Visit? || a.Save?
    ensures t.lock.row == s.lock.row
    decreases |items| - i
  {
    hide After, Enabled, Leads;
    RunFrom(items, i, schema);
    hide Run;
    if i == |items| {
      t := LastVisit(s, r, schema, c);
      actions := [Visit(r, true)];
    } else {
      var item := items[i];
      actions, t := ItemSteps(s, r, item, i, schema, c);
      if PcOf(t, r).Looping? {
        var first, mid := actions, t;
        var rest;
        rest, t := LoopIsMigrate(mid, r, items, i + 1, schema, c);
        LeadsOn(s, first, mid, rest, c, t);
        actions := first + rest;
      }
    }
  }

  /** Steps of holders in which no time passes keep the invariant. */
  lemma {:induction false} LeadsKeepsInv(s: State, actions: seq<Action>, t: State, c: Config,
                                         master: string -> seq<int>)
    requires Leads(s, actions, c, t) && ListsAgree(c, master) && Inv(s, c, master) && L.Prompt(s.lock)
    requires forall a | a in actions :: a.Visit? || a.Save?
    ensures Inv(t, c, master)
    decreases |actions|
  {
    if actions != [] {
      assert actions[0] in actions;
      var mid := After(s, actions[0], c);
      ActionKeepsInv(s, actions[0], c, master);
      assert L.Prompt(mid.lock);
      hide After, Enabled, Inv, ListsAgree;
      LeadsKeepsInv(mid, actions[1..], t, c, master);
    }
  }

  /** A waiting replica gets in and reads the recorded version. */
  lemma EnterAndRead(s: State, r: Replica, stamped: nat, c: Config, master: string -> seq<int>) returns (t: State)
    requires ListsAgree(c, master) && Inv(s, c, master) && L.Prompt(s.lock) && PcOf(s, r) == Waiting
    requires s.lock.now <= stamped && !L.Held(s.lock.row, s.lock.now)
    ensures Leads(s, [Try(r, stamped, true, true), Read(r, true)], c, t)
    ensures Inv(t, c, master) && L.Prompt(t.lock)
    ensures PcOf(t, r) == Looping(Highest(Rec(s, c.service(r))), 0) && Rec(t, c.service(r)) == Rec(s, c.service(r))
  {
    var try, read := Try(r, stamped, true, true), Read(r, true);
    assert r !in s.lock.inside;
    var mid := After(s, try, c);
    TryStep(s, r, stamped, true, true, c, master);
    assert r in mid.lock.inside && mid.lock.inside[r] == mid.lock.now == stamped;
    assert L.Prompt(mid.lock);
    t := After(mid, read, c);
    ActionKeepsInv(mid, read, c, master);
    hide Inv, ListsAgree;
    LeadsThrough(mid, read, t, [], c, t);
    LeadsThrough(s, try, mid, [read], c, t);
    assert [try] + [read] == [try, read];
  }

  /** How a replica ends. */
  function FinalOf(r: Result): Pc {
    match r case Completed => Finished case SaveError => Failed case Panicked => Stopped
  }

  /**
   A replica left alone with a free lock records what `Migrate` records and gives the lock back,
   unless a version's own migration panics: then the row stays locked.  If it ends `Finished`,
   which it does when no version fails, its whole list is recorded.
   */
  lemma {:induction false} LeftAlone(s: State, r: Replica, items: seq<Item>, stamped: nat, c: Config,
                                     master: string -> seq<int>)
    returns (actions: seq<Action>, t: State)
    requires ListsAgree(c, master) && Inv(s, c, master) && L.Prompt(s.lock) && PcOf(s, r) == Waiting
    requires s.lock.now <= stamped && !L.Held(s.lock.row, s.lock.now) && c.list(r) == Indexes(items)
    ensures Leads(s, actions, c, t)
    ensures var (versions, result) := Run(items, Highest(Rec(s, c.service(r))));
      && Rec(t, c.service(r)) == Rec(s, c.service(r)) + versions
      && PcOf(t, r) == FinalOf(result)
      && (t.lock.row.unlockedOn.Some? <==> result != Panicked)
    ensures PcOf(t, r) == Finished ==> c.list(r) <= Rec(t, c.service(r)) && t.lock.inside == map[]
    ensures AllSucceed(items) ==> PcOf(t, r) == Finished
  {
    var schema := Highest(Rec(s, c.service(r)));
    var first := EnterAndRead(s, r, stamped, c, master);
    var loop, last := LoopIsMigrate(first, r, items, 0, schema, c);
    LeadsKeepsInv(first, loop, last, c, master);
    assert items[0..] == items;
    assert first.lock.row.unlockedOn == None by { assert r in first.lock.inside; }
    if AllSucceed(items) {
      RunRecordsAbove(items, schema, 0);
    }
    actions := [Try(r, stamped, true, true), Read(r, true)] + loop;
    LeadsOn(s, [Try(r, stamped, true, true), Read(r, true)], first, loop, c, last);
    t := last;
    if PcOf(last, r).Leaving? {
      ReleaseFrees(last, r, c, master);
      t := After(last, Release(r), c);
      assert ReplicaInv(PcOf(last, r), c.list(r), master(c.service(r)), Rec(last, c.service(r)));
      hide After, Enabled, Inv, ListsAgree;
      LeadsThrough(last, Release(r), t, [], c, t);
      LeadsOn(s, actions, last, [Release(r)] + [], c, t);
      actions := actions + ([Release(r)] + []);
    }
  }

  /**
   The condition on reads matters: after a failed one with something recorded, the replica's
   next two steps record the first version again.
   */
  lemma BlindReadRepeats(s: State, r: Replica, c: Config, master: string -> seq<int>)
    returns (actions: seq<Action>, t: State)
    requires ListsAgree(c, master) && PcOf(s, r) == Entered && c.list(r) != []
    requires Rec(s, c.service(r)) <= master(c.service(r)) && Rec(s, c.service(r)) != []
    ensures actions == [Read(r, false), Visit(r, true), Save(r, true)] && Leads(s, actions, c, t)
    ensures var recorded := Rec(t, c.service(r));
      && |recorded| >= 2 && recorded[0] == recorded[|recorded| - 1]
      && !(recorded <= master(c.service(r)))
  {
    var s1 := After(s, Read(r, false), c);
    var s2 := After(s1, Visit(r, true), c);
    t := After(s2, Save(r, true), c);
    assert c.list(r) <= master(c.service(r)) && Ascending(master(c.service(r)));
    LeadsThrough(s2, Save(r, true), t, [], c, t);
    LeadsThrough(s1, Visit(r, true), s2, [Save(r, true)], c, t);
    LeadsThrough(s, Read(r, false), s1, [Visit(r, true)] + [Save(r, true)], c, t);
    actions := [Read(r, false)] + ([Visit(r, true)] + [Save(r, true)]);
    var recorded, list := Rec(t, c.service(r)), master(c.service(r));
    assert recorded == Rec(s, c.service(r)) + [list[0]] && recorded[0] == list[0];
    RepeatIsNoPrefix(recorded, list);
  }

  lemma RepeatIsNoPrefix(recorded: seq<int>, list: seq<int>)
    requires Ascending(list) && |recorded| >= 2 && recorded[0] == recorded[|recorded| - 1]
    ensures !(recorded <= list)
  {
    assert |recorded| <= |list| ==> list[0] < list[|recorded| - 1];
  }
}
