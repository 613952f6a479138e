/**
 The connection ring of the NATS provider (v2/pkg/broker/providers/nats/provider.go): a
 `container/ring` built by repeated `Link(...).Next()`, walked round-robin by `requestConn`.
 */
module ConnectionRing {
  import opened Basics

  /** A node of `container/ring`; a fresh one has no neighbours until it is first used. */
  class Ring {
    var next: Ring?
    var prev: Ring?
    const value: int

    constructor (v: int)
      ensures next == null && prev == null && value == v
    {
      next, prev, value := null, null, v;
    }

    /** `init`: a ring of one. */
    method Init()
      modifies this
      ensures next == this && prev == this
    {
      next := this;
      prev := this;
    }

    /** `Next`, which initialises a fresh node. */
    method Next(ghost nodes: seq<Ring>) returns (n: Ring)
      requires Cycle(nodes) && nodes[0] == this
      modifies this
      ensures Linked(nodes) && n == nodes[Succ(0, |nodes|)]
      ensures old(next) != null ==> unchanged(this)
    {
      if next == null {
        Init();
        return this;
      }
      n := next;
    }

    /** `Link` with a fresh node `s`: it goes right after this one; the old successor is returned. */
    method Link(s: Ring, ghost nodes: seq<Ring>) returns (n: Ring)
      requires Cycle(nodes) && nodes[0] == this
      requires s !in nodes && s.next == null && s.prev == null
      modifies nodes, s
      ensures Linked([this, s] + nodes[1..])
      ensures n == nodes[Succ(0, |nodes|)]
    {
      n := Next(nodes);
      s.Init();
      var p := s.prev;
      this.next := s;
      s.prev := this;
      n.prev := p;
      p.next := n;
      LinkedAfterInsert(nodes, s);
    }
  }

  function Succ(i: nat, n: nat): nat
    requires i < n
  {
    if i + 1 == n then 0 else i + 1
  }

  /** A doubly linked cycle through distinct nodes. */
  ghost predicate Linked(nodes: seq<Ring>)
    reads nodes
  {
    && |nodes| >= 1
    && (forall i, j | 0 <= i < j < |nodes| :: nodes[i] != nodes[j])
    && forall i | 0 <= i < |nodes| :: nodes[i].next == nodes[Succ(i, |nodes|)] &&
        nodes[Succ(i, |nodes|)].prev == nodes[i]
  }

  /** A cycle, or one node not yet initialised. */
  ghost predicate Cycle(nodes: seq<Ring>)
    reads nodes
  {
    Linked(nodes) || (|nodes| == 1 && nodes[0].next == null && nodes[0].prev == null)
  }

  lemma LinkedAfterInsert(nodes: seq<Ring>, s: Ring)
    requires |nodes| >= 1 && s !in nodes && forall i, j | 0 <= i < j < |nodes| :: nodes[i] != nodes[j]
    requires nodes[0].next == s && s.prev == nodes[0] && s.next == nodes[Succ(0, |nodes|)] &&
        nodes[Succ(0, |nodes|)].prev == s
    requires forall i | 1 <= i < |nodes| ::
        nodes[i].next == nodes[Succ(i, |nodes|)] && nodes[Succ(i, |nodes|)].prev == nodes[i]
    ensures Linked([nodes[0], s] + nodes[1..])
  {
    var all := [nodes[0], s] + nodes[1..];
    forall i | 2 <= i < |all| ensures all[i] == nodes[i - 1] && all[Succ(i, |all|)] == nodes[Succ(i - 1, |nodes|)] {
    }
    assert all[Succ(1, |all|)] == nodes[Succ(0, |nodes|)];
    forall i, j | 0 <= i < j < |all| ensures all[i] != all[j] {
      assert j >= 2 ==> nodes[j - 1] in nodes;
    }
  }

  // ---- rotation ----

  function Rotate<T>(s: seq<T>, k: nat): seq<T>
    requires k <= |s|
  {
    s[k..] + s[..k]
  }

  lemma RotateLinked(nodes: seq<Ring>, k: nat)
    requires Linked(nodes) && k <= |nodes|
    ensures Linked(Rotate(nodes, k))
  {
    var n, r := |nodes|, Rotate(nodes, k);
    forall i | 0 <= i < n
      ensures r[i] == nodes[if k + i < n then k + i else k + i - n]
    {
    }
    forall i | 0 <= i < n
      ensures r[i].next == r[Succ(i, n)] && r[Succ(i, n)].prev == r[i]
    {
      var at := if k + i < n then k + i else k + i - n;
      assert r[Succ(i, n)] == nodes[Succ(at, n)];
    }
  }

  /** Where the cursor stands after `Link(...).Next()` on a ring that had `n` nodes: three further on, around. */
  function CursorShift(n: nat): nat
    requires n >= 1
    ensures CursorShift(n) < n + 1
  {
    if n == 1 then 1 else if n == 2 then 0 else 3
  }

  /** The order of values from the cursor on after one more connection is added. */
  function Insert<T>(order: seq<T>, v: T): (r: seq<T>)
    requires |order| >= 1
    ensures |r| == |order| + 1
  {
    Rotate([order[0], v] + order[1..], CursorShift(|order|))
  }

  function BuildOrder(values: seq<int>): (r: seq<int>)
    ensures |r| == |values|
  {
    if |values| <= 1 then values
    else Insert(BuildOrder(values[..|values| - 1]), values[|values| - 1])
  }

  function Values(nodes: seq<Ring>): (r: seq<int>)
    ensures |r| == |nodes| && forall i | 0 <= i < |r| :: r[i] == nodes[i].value
  {
    seq(|nodes|, i requires 0 <= i < |nodes| => nodes[i].value)
  }

  /** Where the node returned by `Link` stands among the linked nodes. */
  function LinkShift(n: nat): nat {
    if n == 1 then 0 else 2
  }

  lemma InsertOrder(before: seq<Ring>, s: Ring)
    requires |before| >= 1
    ensures var n := |before|;
      var turned := Rotate([before[0], s] + before[1..], LinkShift(n));
      && |turned| == n + 1
      && turned[0] == before[Succ(0, n)]
      && Rotate(turned, 1) == Insert(before, s)
      && Rotate(turned, 1)[0] == turned[Succ(0, n + 1)]
  {
  }

  lemma InsertValues(before: seq<Ring>, s: Ring)
    requires |before| >= 1
    ensures Values(Insert(before, s)) == Insert(Values(before), s.value)
  {
    var n, linked := |before|, [before[0], s] + before[1..];
    assert Values(linked) == [Values(before)[0], s.value] + Values(before)[1..];
    RotateValues(linked, CursorShift(n));
    hide Values, Rotate, CursorShift;
  }

  lemma RotateValues(nodes: seq<Ring>, k: nat)
    requires k <= |nodes|
    ensures Values(Rotate(nodes, k)) == Rotate(Values(nodes), k)
  {
  }

  lemma InsertMembers(before: seq<Ring>, s: Ring)
    requires |before| >= 1
    ensures forall x | x in Insert(before, s) :: x in before || x == s
  {
  }

  lemma TurnedIsCycle(nodes: seq<Ring>, k: nat)
    requires Linked(nodes) && k <= |nodes|
    ensures Cycle(Rotate(nodes, k)) && |Rotate(nodes, k)| >= 1
  {
    RotateLinked(nodes, k);
    hide Rotate;
  }

  /** The global ring: a cursor into it. */
  class Pool {
    var cursor: Ring?
    ghost var nodes: seq<Ring>

    ghost predicate Valid()
      reads this, nodes
    {
      if cursor == null then nodes == [] else nodes != [] && nodes[0] == cursor && Cycle(nodes)
    }

    constructor ()
      ensures Valid() && nodes == []
    {
      cursor, nodes := null, [];
    }

    /** One round of the build loop of `NewNatsProvider`. */
    method Add(bus: int)
      requires Valid()
      modifies this, nodes
      ensures Valid() && nodes != [] && forall n | n in nodes :: n in old(nodes) || fresh(n)
      ensures Values(nodes) == if old(nodes) == [] then [bus] else Insert(Values(old(nodes)), bus)
    {
      var s := new Ring(bus);
      if cursor == null {
        cursor, nodes := s, [s];
      } else {
        InsertValues(nodes, s);
        InsertMembers(nodes, s);
        hide Insert, Values;
        LinkAndAdvance(s);
      }
    }

    /** `globalConnections = globalConnections.Link(s).Next()`. */
    method LinkAndAdvance(s: Ring)
      requires Valid() && nodes != [] && s !in nodes && s.next == null && s.prev == null
      modifies this, nodes, s
      ensures Valid() && nodes == Insert(old(nodes), s)
    {
      ghost var before := nodes;
      ghost var linked := [before[0], s] + before[1..];
      ghost var turned := Rotate(linked, LinkShift(|before|));
      InsertOrder(before, s);
      RotateMembers(linked, LinkShift(|before|));
      hide Linked, Cycle, Rotate, Insert, LinkShift;
      var n := cursor.Link(s, before);
      TurnedIsCycle(linked, LinkShift(|before|));
      cursor := n.Next(turned);
      TurnedIsCycle(turned, 1);
      nodes := Rotate(turned, 1);
    }

    /** `requestConn`: moves the cursor on and returns the connection it reaches. */
    method RequestConn() returns (bus: int)
      requires Valid() && nodes != []
      modifies this, nodes
      ensures Valid() && nodes == Rotate(old(nodes), 1)
      ensures bus == Values(old(nodes))[Succ(0, |old(nodes)|)]
    {
      var n := cursor.Next(nodes);
      RotateLinked(nodes, 1);
      cursor := n;
      nodes := Rotate(nodes, 1);
      bus := n.value;
    }
  }

  /** The whole build loop: one doubly linked cycle in a fixed order. */
  method NewPool(values: seq<int>) returns (pool: Pool)
    requires values != []
    ensures fresh(pool) && fresh(pool.nodes) && pool.Valid() && pool.nodes != []
    ensures Values(pool.nodes) == BuildOrder(values)
  {
    pool := new Pool();
    for i := 0 to |values|
      invariant fresh(pool) && fresh(pool.nodes) && pool.Valid()
      invariant pool.nodes == [] <==> i == 0
      invariant Values(pool.nodes) == BuildOrder(values[..i])
    {
      ghost var before := pool.nodes;
      pool.Add(values[i]);
      forall k | 0 <= k < |pool.nodes| ensures fresh(pool.nodes[k]) {
        assert pool.nodes[k] in pool.nodes;
      }
      assert values[..i + 1][..i] == values[..i];
    }
    assert values[..|values|] == values;
  }

  lemma RotateMultiset<T>(s: seq<T>, k: nat)
    requires k <= |s|
    ensures multiset(Rotate(s, k)) == multiset(s)
  {
    assert s == s[..k] + s[k..];
  }

  lemma InsertMultiset<T>(order: seq<T>, v: T)
    requires |order| >= 1
    ensures multiset(Insert(order, v)) == multiset(order) + multiset{v}
  {
    var linked := [order[0], v] + order[1..];
    RotateMultiset(linked, CursorShift(|order|));
    hide Rotate, CursorShift;
    assert order == [order[0]] + order[1..];
    assert multiset(linked) == multiset{order[0], v} + multiset(order[1..]);
  }

  lemma BuildOrderOfMore(init: seq<int>, last: int)
    requires |init| >= 1
    ensures BuildOrder(init + [last]) == Insert(BuildOrder(init), last)
  {
    hide Insert;
    assert (init + [last])[..|init|] == init;
  }

  lemma InitAndLast(values: seq<int>)
    requires |values| >= 1
    ensures var init, last := values[..|values| - 1], values[|values| - 1];
      values == init + [last] && multiset(values) == multiset(init) + multiset{last}
  {
    assert values == values[..|values| - 1] + [values[|values| - 1]];
  }

  /** The loop puts every created connection in the ring exactly once. */
  lemma {:induction false} BuildOrderIsPermutation(values: seq<int>)
    ensures multiset(BuildOrder(values)) == multiset(values)
  {
    if |values| > 1 {
      var init, last := values[..|values| - 1], values[|values| - 1];
      BuildOrderIsPermutation(init);
      BuildOrderOfMore(init, last);
      hide BuildOrder, Insert;
      InsertMultiset(BuildOrder(init), last);
      InitAndLast(values);
    }
  }

  // ---- round-robin ----

  /** The connections `k` calls in a row return, when the cursor has moved `from` places. */
  function Served<T>(order: seq<T>, from: nat, k: nat): (r: seq<T>)
    requires order != []
    ensures |r| == k
  {
    seq(k, i requires 0 <= i < k => order[(from + i) % |order|])
  }

  lemma ModStep(a: nat, n: nat)
    requires n > 0
    ensures (a + 1) % n == if a % n + 1 == n then 0 else a % n + 1
  {
    var q := a / n;
    assert a == q * n + a % n;
    if a % n + 1 == n {
      assert a + 1 == (q + 1) * n;
      ModUnique(a + 1, n, q + 1, 0);
    } else {
      ModUnique(a + 1, n, q, a % n + 1);
    }
  }

  lemma {:induction false} Multiple(d: int, n: nat)
    requires n > 0
    ensures d >= 1 ==> d * n >= n
    ensures d <= -1 ==> d * n <= 0 - n
    decreases if d < 0 then 0 - d else d
  {
    if d > 1 {
      Multiple(d - 1, n);
      assert d * n == (d - 1) * n + n;
    } else if d < -1 {
      Multiple(d + 1, n);
      assert d * n == (d + 1) * n - n;
    }
  }

  lemma DivModUnique(a: nat, n: nat, q: nat, r: nat)
    requires n > 0 && a == q * n + r && r < n
    ensures a / n == q && a % n == r
  {
    var d: int := a / n - q;
    assert a == (a / n) * n + a % n;
    assert d * n == (a / n) * n - q * n == r - a % n;
    Multiple(d, n);
  }

  lemma ModUnique(a: nat, n: nat, q: nat, r: nat)
    requires n > 0 && a == q * n + r && r < n
    ensures a % n == r
  {
    DivModUnique(a, n, q, r);
  }

  lemma {:induction false} ModSplit(a: nat, b: nat, n: nat)
    requires n > 0 && b <= n
    ensures (a + b) % n == if a % n + b < n then a % n + b else a % n + b - n
  {
    var q := a / n;
    assert a == q * n + a % n;
    if a % n + b < n {
      ModUnique(a + b, n, q, a % n + b);
    } else {
      assert (q + 1) * n == q * n + n;
      ModUnique(a + b, n, q + 1, a % n + b - n);
    }
  }

  /** As many calls as there are connections return the whole ring, from the cursor on. */
  lemma FullRound<T>(order: seq<T>, from: nat)
    requires order != []
    ensures Served(order, from, |order|) == Rotate(order, from % |order|)
    ensures multiset(Served(order, from, |order|)) == multiset(order)
  {
    var n := |order|;
    forall i | 0 <= i < n ensures Served(order, from, n)[i] == Rotate(order, from % n)[i] {
      ModSplit(from, i, n);
    }
    RotateMultiset(order, from % n);
  }

  lemma {:induction false} CountDistinct<T>(s: seq<T>, x: T)
    requires Distinct(s)
    ensures multiset(s)[x] == if x in s then 1 else 0
  {
    if s != [] {
      assert s == [s[0]] + s[1..];
      CountDistinct(s[1..], x);
    }
  }

  lemma ServedSplit<T>(order: seq<T>, from: nat, k: nat)
    requires order != [] && k >= |order|
    ensures Served(order, from, k) == Served(order, from, |order|) + Served(order, from + |order|, k - |order|)
  {
    var n := |order|;
    forall i | n <= i < k ensures Served(order, from, k)[i] == Served(order, from + n, k - n)[i - n] {
      assert from + i == from + n + (i - n);
    }
  }

  lemma UsageInRound<T>(order: seq<T>, from: nat, k: nat, x: T)
    requires order != [] && Distinct(order) && x in order && k <= |order|
    ensures 0 <= multiset(Served(order, from, k))[x] <= 1
    ensures k == |order| ==> multiset(Served(order, from, k))[x] == 1
  {
    var all := Served(order, from, |order|);
    FullRound(order, from);
    CountDistinct(order, x);
    assert Served(order, from, k) == all[..k];
    assert all == all[..k] + all[k..];
    assert multiset(all)[x] == multiset(all[..k])[x] + multiset(all[k..])[x];
  }

  /** After any number of calls, every connection has been used k/n or k/n + 1 times. */
  lemma {:induction false} UsageIsFair<T>(order: seq<T>, from: nat, k: nat, x: T)
    requires order != [] && Distinct(order) && x in order
    ensures k / |order| <= multiset(Served(order, from, k))[x] <= k / |order| + 1
    decreases k
  {
    var n := |order|;
    if k >= n {
      ServedSplit(order, from, k);
      UsageInRound(order, from, n, x);
      UsageIsFair(order, from + n, k - n, x);
      DivStep(k - n, n);
      assert k == (k - n) + n;
    } else {
      UsageInRound(order, from, k, x);
      DivSmall(k, n);
    }
  }

  lemma DivStep(a: nat, n: nat)
    requires n > 0
    ensures (a + n) / n == a / n + 1
  {
    var q, r := a / n, a % n;
    assert a + n == (q + 1) * n + r by { assert (q + 1) * n == q * n + n; }
    DivModUnique(a + n, n, q + 1, r);
  }

  lemma DivSmall(a: nat, n: nat)
    requires a < n
    ensures a / n == 0
  {
    DivModUnique(a, n, 0, a);
  }

  /** The cursor of a ring of `n` stands at `p` after `i` calls. */
  predicate CursorAt(i: nat, n: nat, p: nat) {
    p < n && p == i % n
  }

  lemma NextServed(order: seq<Ring>, i: nat, p: nat)
    requires order != [] && CursorAt(i, |order|, p)
    ensures p < |order|
    ensures CursorAt(i + 1, |order|, Succ(p, |order|)) && Succ(p, |order|) < |order|
    ensures Rotate(Rotate(order, p), 1) == Rotate(order, Succ(p, |order|)) != []
    ensures Served(Values(order), 1, i + 1) ==
        Served(Values(order), 1, i) + [Values(Rotate(order, p))[Succ(0, |order|)]]
    ensures |Rotate(order, p)| == |order| && forall r | r in Rotate(order, p) :: r in order
  {
    ModStep(i, |order|);
    RotateTwice(order, p);
    ServedSnoc(Values(order), 1, i);
  }

  lemma NextPick(order: seq<Ring>, t: nat, p: nat)
    requires order != [] && CursorAt(t, |order|, p)
    ensures p < |order| && |Rotate(order, p)| == |order|
    ensures Values(Rotate(order, p))[Succ(0, |order|)] == Values(order)[(1 + t) % |order|]
    ensures CursorAt(t + 1, |order|, Succ(p, |order|)) && Succ(p, |order|) < |order|
    ensures Rotate(Rotate(order, p), 1) == Rotate(order, Succ(p, |order|)) != []
    ensures forall r | r in Rotate(order, p) :: r in order
  {
    NextServed(order, t, p);
    ServedSnoc(Values(order), 1, t);
  }

  /** The ring of `order` turned by the `t` calls made so far. */
  ghost predicate Turned(pool: Pool, order: seq<Ring>, t: nat)
    reads pool, pool.nodes
  {
    && pool.Valid() && order != []
    && exists p: nat :: CursorAt(t, |order|, p) && pool.nodes == Rotate(order, p)
  }

  lemma StartTurned(pool: Pool)
    requires pool.Valid() && pool.nodes != []
    ensures Turned(pool, pool.nodes, 0)
  {
    RotateNone(pool.nodes);
    assert CursorAt(0, |pool.nodes|, 0);
  }

  lemma TurnedNodes(pool: Pool, order: seq<Ring>, t: nat)
    requires Turned(pool, order, t)
    ensures pool.nodes != [] && forall r | r in pool.nodes :: r in order
  {
    var p: nat :| CursorAt(t, |order|, p) && pool.nodes == Rotate(order, p);
    NextPick(order, t, p);
  }

  lemma RotateMembers<T>(s: seq<T>, k: nat)
    requires k <= |s|
    ensures forall x | x in s :: x in Rotate(s, k)
  {
    assert s == s[..k] + s[k..];
  }

  /** One call by anybody: the next connection in turn. */
  method CallInTurn(pool: Pool, ghost order: seq<Ring>, ghost t: nat) returns (bus: int)
    requires Turned(pool, order, t)
    modifies pool, pool.nodes
    ensures Turned(pool, order, t + 1) && bus == Values(order)[(1 + t) % |order|]
    ensures forall r: object | r in pool.nodes :: r in order && r in old(pool.nodes)
  {
    ghost var p: nat :| CursorAt(t, |order|, p) && pool.nodes == Rotate(order, p);
    NextPick(order, t, p);
    hide Rotate, Linked, Cycle, Pool.Valid, CursorAt, Values;
    bus := pool.RequestConn();
    TurnedNodes(pool, order, t + 1);
    RotateMembers(order, p);
  }

  lemma TurnedMembers(pool: Pool, order: seq<Ring>, t: nat)
    requires Turned(pool, order, t)
    ensures pool.Valid() && multiset(pool.nodes) == multiset(order)
  {
    var p: nat :| CursorAt(t, |order|, p) && pool.nodes == Rotate(order, p);
    NextPick(order, t, p);
    RotateMultiset(order, p);
  }

  /** Successive `requestConn` calls: the order served; the ring is only turned. */
  method RequestMany(pool: Pool, k: nat) returns (used: seq<int>)
    requires pool.Valid() && pool.nodes != []
    modifies pool, pool.nodes
    ensures pool.Valid() && multiset(pool.nodes) == multiset(old(pool.nodes))
    ensures used == Served(Values(old(pool.nodes)), 1, k)
  {
    used := [];
    ghost var order := pool.nodes;
    ghost var values := Values(order);
    ServedSnoc(values, 1, 0);
    StartTurned(pool);
    hide Turned, Pool.Valid, Served, Values;
    for i := 0 to k
      invariant Turned(pool, order, i)
      invariant forall r: object | r in pool.nodes :: r in order
      invariant used == Served(values, 1, i)
    {
      ServedSnoc(values, 1, i);
      var bus := CallInTurn(pool, order, i);
      used := used + [bus];
    }
    TurnedMembers(pool, order, k);
  }

  lemma ServedSnoc<T>(order: seq<T>, from: nat, k: nat)
    requires order != []
    ensures Served(order, from, 0) == []
    ensures Served(order, from, k + 1) == Served(order, from, k) + [order[(from + k) % |order|]]
  {
  }

  lemma RotateNone<T>(s: seq<T>)
    requires s != []
    ensures 0 % |s| == 0 && Rotate(s, 0) == s
  {
  }

  lemma RotateTwice<T>(s: seq<T>, k: nat)
    requires k < |s|
    ensures Rotate(Rotate(s, k), 1) == Rotate(s, if k + 1 == |s| then 0 else k + 1)
  {
  }

  /** `SubscribeRaw` without interleaved calls: exactly one subscription per connection. */
  method SubscribeOnAll(pool: Pool, maxConns: nat) returns (subscribed: seq<int>)
    requires pool.Valid() && pool.nodes != [] && maxConns == |pool.nodes|
    modifies pool, pool.nodes
    ensures pool.Valid() && multiset(subscribed) == multiset(Values(old(pool.nodes)))
  {
    ghost var order := Values(pool.nodes);
    subscribed := RequestMany(pool, maxConns);
    FullRound(order, 1);
  }

  // ---- calls by others in between ----

  /** The connections of the calls numbered `at`, counting everybody's calls. */
  function Picks<T>(order: seq<T>, from: nat, at: seq<nat>): (r: seq<T>)
    requires order != []
    ensures |r| == |at|
  {
    seq(|at|, i requires 0 <= i < |at| => order[(from + at[i]) % |order|])
  }

  /** The number of the i-th own call when `gaps[i]` foreign ones come just before it. */
  ghost predicate Schedule(gaps: seq<nat>, at: seq<nat>) {
    && |at| <= |gaps|
    && forall i | 0 <= i < |at| :: at[i] == (if i == 0 then 0 else at[i - 1] + 1) + gaps[i]
  }

  /** The number of the next call after those numbered `at`. */
  function After(at: seq<nat>): nat {
    if at == [] then 0 else at[|at| - 1] + 1
  }

  lemma AfterSnoc(at: seq<nat>, t: nat)
    ensures After(at + [t]) == t + 1
  {
  }

  lemma ScheduleSnoc(gaps: seq<nat>, at: seq<nat>)
    requires Schedule(gaps, at) && |at| < |gaps|
    ensures Schedule(gaps, at + [After(at) + gaps[|at|]])
  {
    var longer := at + [After(at) + gaps[|at|]];
    forall i | 0 <= i < |longer|
      ensures longer[i] == (if i == 0 then 0 else longer[i - 1] + 1) + gaps[i]
    {
      assert i < |at| ==> longer[i] == at[i] && at[i] == (if i == 0 then 0 else at[i - 1] + 1) + gaps[i];
    }
  }

  lemma PicksSnoc<T>(order: seq<T>, from: nat, at: seq<nat>, t: nat)
    requires order != []
    ensures Picks(order, from, []) == []
    ensures Picks(order, from, at + [t]) == Picks(order, from, at) + [order[(from + t) % |order|]]
  {
  }

  method CallByOther(pool: Pool, ghost order: seq<Ring>, ghost t: nat)
    requires Turned(pool, order, t)
    modifies pool, pool.nodes
    ensures Turned(pool, order, t + 1)
    ensures forall r: object | r in pool.nodes :: r in old(pool.nodes)
  {
    hide *;
    var _ := CallInTurn(pool, order, t);
  }

  method ForeignCalls(pool: Pool, k: nat, ghost order: seq<Ring>, ghost t: nat)
    requires Turned(pool, order, t)
    modifies pool, pool.nodes
    ensures Turned(pool, order, t + k)
    ensures forall r: object | r in pool.nodes :: r in old(pool.nodes)
    decreases k
  {
    hide *;
    if k > 0 {
      ghost var mine := pool.nodes;
      CallByOther(pool, order, t);
      assert forall i | 0 <= i < |pool.nodes| :: pool.nodes[i] in mine;
      assert forall r: object | r in pool.nodes :: r in mine;
      ForeignCalls(pool, k - 1, order, t + 1);
    }
  }

  /** One own call with the foreign ones before it. */
  method NextOwnCall(pool: Pool, gap: nat, ghost order: seq<Ring>, ghost t: nat) returns (bus: int)
    requires Turned(pool, order, t)
    modifies pool, pool.nodes
    ensures Turned(pool, order, t + gap + 1) && bus == Values(order)[(1 + (t + gap)) % |order|]
    ensures forall r: object | r in pool.nodes :: r in old(pool.nodes)
  {
    hide *;
    ghost var mine := pool.nodes;
    ForeignCalls(pool, gap, order, t);
    assert forall i | 0 <= i < |pool.nodes| :: pool.nodes[i] in mine;
    assert forall r: object | r in pool.nodes :: r in mine;
    bus := CallInTurn(pool, order, t + gap);
  }

  /** The calls so far: their numbers and what they returned. */
  ghost predicate Made(gaps: seq<nat>, at: seq<nat>, i: nat, order: seq<int>, got: seq<int>) {
    && order != [] && |at| == i <= |gaps|
    && Schedule(gaps, at) && got == Picks(order, 1, at)
  }

  lemma NothingMade(gaps: seq<nat>, order: seq<int>)
    requires order != []
    ensures Made(gaps, [], 0, order, []) && After([]) == 0
  {
    PicksSnoc(order, 1, [], 0);
  }

  lemma MadeOneMore(gaps: seq<nat>, at: seq<nat>, i: nat, order: seq<int>, got: seq<int>, t: nat)
    requires Made(gaps, at, i, order, got) && i < |gaps| && t == After(at) + gaps[i]
    ensures Made(gaps, at + [t], i + 1, order, got + [order[(1 + t) % |order|]])
    ensures After(at + [t]) == t + 1
  {
    hide Schedule, Picks, After;
    PicksSnoc(order, 1, at, t);
    ScheduleSnoc(gaps, at);
    AfterSnoc(at, t);
  }

  /** `SubscribeRaw` while others call `requestConn` too: `gaps[i]` of their calls come before its i-th own. */
  method SubscribeAmong(pool: Pool, gaps: seq<nat>) returns (subscribed: seq<int>, ghost at: seq<nat>)
    requires pool.Valid() && pool.nodes != []
    modifies pool, pool.nodes
    ensures pool.Valid() && |at| == |gaps| && Schedule(gaps, at)
    ensures subscribed == Picks(Values(old(pool.nodes)), 1, at)
  {
    hide *;
    ghost var order := pool.nodes;
    ghost var values := Values(order);
    subscribed, at := [], [];
    NothingMade(gaps, values);
    StartTurned(pool);
    for i := 0 to |gaps|
      invariant Turned(pool, order, After(at))
      invariant forall r: object | r in pool.nodes :: r in order
      invariant Made(gaps, at, i, values, subscribed)
    {
      ghost var t: nat := After(at) + gaps[i];
      assert forall k | 0 <= k < |pool.nodes| :: pool.nodes[k] in order;
      var bus := NextOwnCall(pool, gaps[i], order, After(at));
      MadeOneMore(gaps, at, i, values, subscribed, t);
      subscribed, at := subscribed + [bus], at + [t];
    }
    TurnedIsValid(pool, order, After(at));
    MadeIs(gaps, at, |gaps|, values, subscribed);
  }

  lemma MadeIs(gaps: seq<nat>, at: seq<nat>, i: nat, order: seq<int>, got: seq<int>)
    requires Made(gaps, at, i, order, got)
    ensures order != [] && |at| == i && Schedule(gaps, at) && got == Picks(order, 1, at)
  {
  }

  lemma TurnedIsValid(pool: Pool, order: seq<Ring>, t: nat)
    requires Turned(pool, order, t)
    ensures pool.Valid()
  {
  }

  /** Distinct elements of a list that has as many are a permutation of it. */
  lemma DistinctIsPermutation<T>(picks: seq<T>, order: seq<T>)
    requires Distinct(order) && Distinct(picks) && |picks| == |order| && forall x | x in picks :: x in order
    ensures multiset(picks) == multiset(order)
  {
    forall x ensures multiset(picks)[x] <= multiset(order)[x] {
      CountDistinct(picks, x);
      CountDistinct(order, x);
    }
    assert multiset(picks) <= multiset(order);
    assert |multiset(order) - multiset(picks)| == 0;
  }

  lemma PermutationIsDistinct<T>(picks: seq<T>, order: seq<T>, i: nat, j: nat)
    requires Distinct(order) && multiset(picks) == multiset(order) && i < j < |picks|
    ensures picks[i] != picks[j]
  {
    CountTwice(picks, i, j);
    CountDistinct(order, picks[i]);
  }

  lemma CountTwice<T>(s: seq<T>, i: nat, j: nat)
    requires i < j < |s|
    ensures s[i] == s[j] ==> multiset(s)[s[i]] >= 2
  {
    var x := s[j];
    assert s == s[..j] + [x] + s[j + 1..];
    assert multiset(s)[x] == multiset(s[..j])[x] + 1 + multiset(s[j + 1..])[x];
    assert s[..j][i] == s[i];
  }

  /**
   Whatever calls others make in between, every connection gets exactly one subscription if
   and only if no two own calls are numbered alike modulo the number of connections.
   */
  lemma {:induction false} SubscribedOnceIff<T>(order: seq<T>, from: nat, at: seq<nat>)
    requires order != [] && Distinct(order) && |at| == |order|
    ensures multiset(Picks(order, from, at)) == multiset(order)
      <==> forall i, j | 0 <= i < j < |at| :: (from + at[i]) % |order| != (from + at[j]) % |order|
  {
    var picks := Picks(order, from, at);
    if multiset(picks) == multiset(order) {
      forall i, j | 0 <= i < j < |at| ensures (from + at[i]) % |order| != (from + at[j]) % |order| {
        PermutationIsDistinct(picks, order, i, j);
      }
    }
    if forall i, j | 0 <= i < j < |at| :: (from + at[i]) % |order| != (from + at[j]) % |order| {
      DistinctIsPermutation(picks, order);
    }
  }

  /** One call by somebody else in between leaves one connection without subscription and one with two. */
  lemma {:induction false} InterleavedCallSkips<T>(order: seq<T>, from: nat, j: nat)
    requires order != [] && Distinct(order) && 0 < j < |order|
    ensures var got := Served(order, from, j) + Served(order, from + j + 1, |order| - j);
      && |got| == |order|
      && order[(from + j) % |order|] !in got
      && got[0] == got[|order| - 1]
      && multiset(got) != multiset(order)
  {
    var n := |order|;
    var at: seq<nat> := seq(n, i requires 0 <= i < n => if i < j then i else i + 1);
    var got := Served(order, from, j) + Served(order, from + j + 1, n - j);
    forall i | 0 <= i < n ensures got[i] == Picks(order, from, at)[i] != order[(from + j) % n] {
      assert got[i] == order[(from + at[i]) % n];
      ModSplit(from, at[i], n);
      ModSplit(from, j, n);
    }
    assert got == Picks(order, from, at);
    ModSplit(from, n, n);
    SubscribedOnceIff(order, from, at);
  }

  /** Foreign calls can also do no harm: one in every gap of three connections still reaches all three. */
  lemma {:induction false} OneInEveryGapIsHarmless<T>(order: seq<T>)
    requires |order| == 3 && Distinct(order)
    ensures Schedule([0, 1, 1], [0, 2, 4]) && multiset(Picks(order, 0, [0, 2, 4])) == multiset(order)
  {
    SubscribedOnceIff(order, 0, [0, 2, 4]);
  }
}
