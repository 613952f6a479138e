/**
 The database lease behind `TryLock`, `Lock` and `Unlock` (pkg/service/base-service.go).
 A lock row is held while it is not marked unlocked and was locked less than five minutes
 ago.  Transactions on one lock name are taken one at a time, each reading a shared clock.
 Times are nanoseconds since Go's zero time; a missing row reads as the zero row.
 */
module LeaseLock {
  import opened Basics

  const LEASE: nat := 300_000_000_000
  const RETRY: nat := 500_000_000
  const MAX_ATTEMPTS: nat := 601

  /** Service keys are version-5 UUIDs; 0 is the nil UUID of a row never written. */
  type Key = k: nat | k != 0 witness 1

  datatype Row = Row(lockedOn: nat, unlockedOn: Option<nat>, lockedBy: nat)

  const NO_ROW := Row(0, None, 0)

  function ReadRow(rows: map<string, Row>, name: string): Row {
    if name in rows then rows[name] else NO_ROW
  }

  /** What a transaction goes on with: the code ignores a failed read and takes the zero row. */
  function Seen(row: Row, sees: bool): Row {
    if sees then row else NO_ROW
  }

  /** `UnlockedOn == nil && LockedOn.After(now - 5min)`. */
  predicate Held(row: Row, now: int) {
    row.unlockedOn.None? && row.lockedOn > now - LEASE
  }

  /** The check of `Unlock` that panics with "invalid lock state". */
  predicate InvalidState(row: Row, key: Key) {
    row.lockedBy != key || row.unlockedOn.Some?
  }

  /** The row after a `TryLock` and after an `Unlock`. */
  function Locked(row: Row, key: Key, checked: nat, stamped: nat, sees: bool, saves: bool): Row {
    if !Held(Seen(row, sees), checked) && saves then Row(stamped, None, key) else row
  }

  function Unlocked(row: Row, key: Key, at: nat, sees: bool, saves: bool): Row {
    if !InvalidState(Seen(row, sees), key) && saves then row.(unlockedOn := Some(at)) else row
  }

  /** The lock table; `name` is the full lock name, `nats-mutex-` and the caller's name or the service's. */
  class LockTable {
    var rows: map<string, Row>

    constructor ()
      ensures rows == map[]
    {
      rows := map[];
    }

    /** One `TryLock` transaction: its two clock readings, and how its read and its write go. */
    method TryLock(name: string, key: Key, checked: nat, stamped: nat, sees: bool, saves: bool) returns (ok: bool)
      requires checked <= stamped
      modifies this
      ensures ok == (!Held(Seen(ReadRow(old(rows), name), sees), checked) && saves)
      ensures rows.Keys == old(rows).Keys + if ok then {name} else {}
      ensures ReadRow(rows, name) == Locked(ReadRow(old(rows), name), key, checked, stamped, sees, saves)
      ensures forall n | n in old(rows) && n != name :: rows[n] == old(rows)[n]
    {
      var row := NO_ROW;
      if sees {
        row := ReadRow(rows, name);
      }
      if row.unlockedOn.None? && row.lockedOn > checked - LEASE {
        return false;
      }
      row := row.(lockedOn := stamped);
      row := row.(lockedBy := key);
      row := row.(unlockedOn := None);
      if !saves {
        return false;
      }
      rows := rows[name := row];
      ok := true;
    }

    /** One `Unlock` transaction; a panic rolls it back. */
    method Unlock(name: string, key: Key, now: nat, sees: bool, saves: bool) returns (panicked: bool)
      modifies this
      ensures panicked == (InvalidState(Seen(ReadRow(old(rows), name), sees), key) || !saves)
      ensures rows.Keys == old(rows).Keys
      ensures ReadRow(rows, name) == Unlocked(ReadRow(old(rows), name), key, now, sees, saves)
      ensures forall n | n in old(rows) && n != name :: rows[n] == old(rows)[n]
    {
      var row := NO_ROW;
      if sees {
        row := ReadRow(rows, name);
      }
      if row.lockedBy != key || row.unlockedOn.Some? {
        return true;
      }
      row := row.(unlockedOn := Some(now));
      if !saves {
        return true;
      }
      rows := rows[name := row];
      panicked := false;
    }
  }

  /** A clock that never goes back; other activity may advance it between readings. */
  class Clock {
    var now: nat

    method Now() returns (t: nat)
      modifies this
      ensures t == now >= old(now)
    {
      var passed: nat :| passed >= 0;
      now := now + passed;
      t := now;
    }

    method Sleep(d: nat)
      modifies this
      ensures now >= old(now) + d
    {
      var late: nat :| late >= 0;
      now := now + d + late;
    }
  }

  /**
   `Lock`: the retry loop.  When no other client acquires meanwhile and transactions succeed
   it returns within 601 attempts half a second apart, even if the previous holder crashed and never unlocks.
   Other clients may release the lock at any time.
   */
  method Lock(table: LockTable, clock: Clock, name: string, key: Key) returns (attempts: nat)
    requires ReadRow(table.rows, name).lockedOn <= clock.now
    modifies table, clock
    ensures 1 <= attempts <= 601 && clock.now >= old(clock.now) + (attempts - 1) * 500_000_000
    ensures var row := ReadRow(table.rows, name);
      row.lockedBy == key && row.unlockedOn == None && old(clock.now) <= row.lockedOn <= clock.now
    ensures forall n | n != name :: ReadRow(table.rows, n) == ReadRow(old(table.rows), n)
  {
    attempts := 0;
    ghost var start := clock.now;
    while true
      invariant clock.now >= start + attempts * RETRY
      invariant attempts * RETRY < LEASE + RETRY
      invariant ReadRow(table.rows, name).lockedOn <= start
      invariant forall n | n != name :: ReadRow(table.rows, n) == ReadRow(old(table.rows), n)
      decreases MAX_ATTEMPTS - attempts
    {
      attempts := attempts + 1;
      var checked := clock.Now();
      var stamped := clock.Now();
      var ok := table.TryLock(name, key, checked, stamped, true, true);
      if ok {
        return;
      }
      clock.Sleep(RETRY);
      var released := *;
      if released {
        var at := clock.Now();
        table.rows := table.rows[name := ReadRow(table.rows, name).(unlockedOn := Some(at))];
      }
    }
  }

  // ---- any number of clients on one lock name ----

  type Client = nat

  datatype Op =
    | TryLockOp(client: Client, checked: nat, stamped: nat, sees: bool, saves: bool)
    | UnlockOp(client: Client, at: nat, sees: bool, saves: bool)

  function OpStart(op: Op): nat {
    match op case TryLockOp(_, checked, _, _, _) => checked case UnlockOp(_, at, _, _) => at
  }

  function OpEnd(op: Op): nat {
    match op case TryLockOp(_, _, stamped, _, _) => stamped case UnlockOp(_, at, _, _) => at
  }

  /** Whether the transaction changes the row: a successful acquisition or release. */
  predicate Takes(row: Row, op: Op, keys: Client -> Key) {
    match op
    case TryLockOp(_, checked, _, sees, saves) => !Held(Seen(row, sees), checked) && saves
    case UnlockOp(c, _, sees, saves) => !InvalidState(Seen(row, sees), keys(c)) && saves
  }

  function Apply(row: Row, op: Op, keys: Client -> Key): Row {
    match op
    case TryLockOp(c, checked, stamped, sees, saves) => Locked(row, keys(c), checked, stamped, sees, saves)
    case UnlockOp(c, at, sees, saves) => Unlocked(row, keys(c), at, sees, saves)
  }

  /** The row after the first `n` transactions. */
  function RowAfter(row: Row, ops: seq<Op>, n: nat, keys: Client -> Key): Row
    requires n <= |ops|
  {
    if n == 0 then row else Apply(RowAfter(row, ops, n - 1, keys), ops[n - 1], keys)
  }

  ghost predicate ClockNeverGoesBack(ops: seq<Op>) {
    && (forall i | 0 <= i < |ops| :: OpStart(ops[i]) <= OpEnd(ops[i]))
    && forall i | 0 <= i < |ops| - 1 :: OpEnd(ops[i]) <= OpStart(ops[i + 1])
  }

  predicate Acquires(row: Row, ops: seq<Op>, i: nat, keys: Client -> Key)
    requires i < |ops|
  {
    ops[i].TryLockOp? && Takes(RowAfter(row, ops, i, keys), ops[i], keys)
  }

  predicate Releases(row: Row, ops: seq<Op>, i: nat, keys: Client -> Key)
    requires i < |ops|
  {
    ops[i].UnlockOp? && Takes(RowAfter(row, ops, i, keys), ops[i], keys)
  }

  lemma {:induction false} HeldSinceAcquired(row: Row, ops: seq<Op>, i: nat, n: nat, keys: Client -> Key)
    requires ClockNeverGoesBack(ops) && i < n <= |ops| && Acquires(row, ops, i, keys)
    requires forall k | i < k < n :: !Releases(row, ops, k, keys)
    ensures RowAfter(row, ops, n, keys).unlockedOn == None && RowAfter(row, ops, n, keys).lockedOn >= OpEnd(ops[i])
    ensures OpEnd(ops[n - 1]) >= OpEnd(ops[i])
  {
    if n > i + 1 {
      HeldSinceAcquired(row, ops, i, n - 1, keys);
      assert OpEnd(ops[n - 2]) <= OpStart(ops[(n - 2) + 1]);
      assert !Releases(row, ops, n - 1, keys);
    }
  }

  /**
   In every run by any clients, two acquisitions without a release between them are a lease
   apart, if the second one has read the row.
   */
  lemma AcquisitionsAreSpaced(row: Row, ops: seq<Op>, i: nat, j: nat, keys: Client -> Key)
    requires ClockNeverGoesBack(ops) && i < j < |ops|
    requires Acquires(row, ops, i, keys) && Acquires(row, ops, j, keys)
    requires forall k | i < k < j :: !Releases(row, ops, k, keys)
    requires ops[j].sees
    ensures OpStart(ops[j]) >= OpEnd(ops[i]) + LEASE
  {
    HeldSinceAcquired(row, ops, i, j, keys);
  }

  /**
   If its read fails but its write goes through, a `TryLock` takes the lock from anybody who
   holds it (on any clock that has run for a lease).
   */
  lemma BlindTryLockTakes(row: Row, client: Client, checked: nat, stamped: nat, keys: Client -> Key)
    ensures Takes(row, TryLockOp(client, checked, stamped, false, true), keys) <==> checked >= LEASE
  {
  }

  /** A row is freed once: whoever releases it, the next release by anybody needs an acquisition in between. */
  lemma {:induction false} FreedStaysFree(row: Row, ops: seq<Op>, i: nat, n: nat, keys: Client -> Key)
    requires i < n <= |ops| && Releases(row, ops, i, keys)
    requires forall k | i < k < n :: !Acquires(row, ops, k, keys)
    ensures RowAfter(row, ops, n, keys).unlockedOn.Some?
  {
    if n > i + 1 {
      FreedStaysFree(row, ops, i, n - 1, keys);
      assert !Acquires(row, ops, n - 1, keys);
    }
  }

  lemma ReleasesAlternate(row: Row, ops: seq<Op>, i: nat, j: nat, keys: Client -> Key)
    requires i < j < |ops| && Releases(row, ops, i, keys) && Releases(row, ops, j, keys) && ops[j].sees
    ensures exists k :: i < k < j && Acquires(row, ops, k, keys)
  {
    if forall k | i < k < j :: !Acquires(row, ops, k, keys) {
      FreedStaysFree(row, ops, i, j, keys);
    }
  }

  /** The key in the row is that of the latest acquisition. */
  lemma {:induction false} LockedByLatest(row: Row, ops: seq<Op>, n: nat, keys: Client -> Key) returns (i: nat)
    requires n <= |ops| && row == NO_ROW
    ensures i <= n
    ensures i == n ==> RowAfter(row, ops, n, keys) == NO_ROW
    ensures i < n ==> Acquires(row, ops, i, keys) && RowAfter(row, ops, n, keys).lockedBy == keys(ops[i].client)
    ensures i < n ==> forall k | i < k < n :: !Acquires(row, ops, k, keys)
  {
    if n == 0 {
      i := 0;
    } else {
      i := LockedByLatest(row, ops, n - 1, keys);
      if Acquires(row, ops, n - 1, keys) {
        i := n - 1;
      } else if i == n - 1 {
        i := n;
      }
    }
  }

  /**
   On a row that was never written before, every release frees what the latest acquisition took,
   and only a client of the same key can release it.
   */
  lemma ReleaseIsHolders(row: Row, ops: seq<Op>, j: nat, keys: Client -> Key) returns (i: nat)
    requires row == NO_ROW && j < |ops| && Releases(row, ops, j, keys)
    ensures i < j && Acquires(row, ops, i, keys) && keys(ops[i].client) == keys(ops[j].client)
    ensures forall k | i < k < j :: !Acquires(row, ops, k, keys) && !Releases(row, ops, k, keys)
  {
    i := LockedByLatest(row, ops, j, keys);
    forall k | i < k < j ensures !Releases(row, ops, k, keys) {
      if Releases(row, ops, k, keys) {
        FreedStaysFree(row, ops, k, j, keys);
      }
    }
  }

  // ---- exclusion ----

  /** What the clients do with the lock: who is inside, and since when. */
  datatype State = State(row: Row, now: nat, inside: map<Client, nat>)

  datatype Step =
    | Enter(client: Client, stamped: nat, sees: bool, saves: bool)
    | Leave(client: Client)
    | Crash(client: Client)
    | Wait(now: nat)

  /** The database keeps no transaction in which a read has failed. */
  ghost predicate Enabled(s: State, step: Step) {
    match step
    case Enter(c, stamped, sees, saves) => c !in s.inside && s.now <= stamped && (saves ==> sees)
    case Leave(c) => c in s.inside
    case Crash(c) => c in s.inside
    case Wait(now) => s.now <= now
  }

  ghost function After(s: State, step: Step, keys: Client -> Key): State
    requires Enabled(s, step)
  {
    match step
    case Enter(c, stamped, sees, saves) =>
      var op := TryLockOp(c, s.now, stamped, sees, saves);
      State(Apply(s.row, op, keys), stamped, if Takes(s.row, op, keys) then s.inside[c := stamped] else s.inside)
    case Leave(c) => State(Apply(s.row, UnlockOp(c, s.now, true, true), keys), s.now, s.inside - {c})
    case Crash(c) => s.(inside := s.inside - {c})
    case Wait(now) => s.(now := now)
  }

  /** Everyone inside got there less than a lease ago. */
  ghost predicate Prompt(s: State) {
    forall c | c in s.inside :: s.now < s.inside[c] + LEASE
  }

  ghost predicate IsRun(run: seq<State>, steps: seq<Step>, keys: Client -> Key) {
    && |run| == |steps| + 1
    && run[0].inside == map[]
    && forall i | 0 <= i < |steps| :: Enabled(run[i], steps[i]) && run[i + 1] == After(run[i], steps[i], keys)
  }

  /** At most one client is inside, and the row is its own unexpired entry. */
  ghost predicate Exclusive(s: State, keys: Client -> Key) {
    && (forall c, d | c in s.inside && d in s.inside :: c == d)
    && forall c | c in s.inside :: s.row == Row(s.inside[c], None, keys(c))
  }

  lemma ExclusionStep(s: State, step: Step, keys: Client -> Key)
    requires Enabled(s, step) && Exclusive(s, keys) && Prompt(s)
    ensures Exclusive(After(s, step, keys), keys)
  {
    if step.Enter? && Takes(s.row, TryLockOp(step.client, s.now, step.stamped, step.sees, step.saves), keys) {
      if c :| c in s.inside {
        assert false;
      }
    }
  }

  /**
   If nobody stays inside for a whole lease, every run has at most one client inside at any
   time, clients may crash inside, and no holder's `Unlock` ever finds an invalid state.
   */
  lemma {:induction false} MutualExclusion(run: seq<State>, steps: seq<Step>, keys: Client -> Key, n: nat)
    requires IsRun(run, steps, keys) && n < |run|
    requires forall i | 0 <= i < n :: Prompt(run[i])
    ensures Exclusive(run[n], keys)
    ensures forall c | c in run[n].inside :: !InvalidState(run[n].row, keys(c))
  {
    if n > 0 {
      MutualExclusion(run, steps, keys, n - 1);
      ExclusionStep(run[n - 1], steps[n - 1], keys);
      assert run[(n - 1) + 1] == After(run[n - 1], steps[n - 1], keys);
    }
  }

  /** The bound is exact: while one client is inside, another one gets in if and only if the lease is over. */
  lemma EntryIffLeaseOver(s: State, holder: Client, other: Client, stamped: nat, keys: Client -> Key)
    requires Exclusive(s, keys) && holder in s.inside && other != holder && s.now <= stamped
    ensures var step := Enter(other, stamped, true, true);
      && Enabled(s, step)
      && (other in After(s, step, keys).inside <==> s.now >= s.inside[holder] + 5 * 60 * 1_000_000_000)
  {
    assert other !in s.inside;
  }

  /**
   After such a late entry the first holder's `Unlock` panics if the two keys differ; if they
   are equal, as for two services of one process, it silently gives the other's lock away.
   */
  lemma LateUnlock(s: State, holder: Client, other: Client, third: Client, stamped: nat, keys: Client -> Key)
    requires Exclusive(s, keys) && holder in s.inside && s.now >= s.inside[holder] + LEASE && s.now <= stamped
    requires other != holder && third != other && third != holder
    ensures var late := After(s, Enter(other, stamped, true, true), keys);
      && {holder, other} <= late.inside.Keys
      && (InvalidState(late.row, keys(holder)) <==> keys(holder) != keys(other))
      && (keys(holder) == keys(other) ==>
            var freed := After(late, Leave(holder), keys);
            && Enabled(freed, Enter(third, stamped, true, true))
            && {other, third} <= After(freed, Enter(third, stamped, true, true), keys).inside.Keys)
  {
    EntryIffLeaseOver(s, holder, other, stamped, keys);
  }
}
