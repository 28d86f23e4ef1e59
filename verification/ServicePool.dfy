/** The pool of one service: a list of connections, pruned of unhealthy ones on every use,
    with at most one eviction before a creation. Each method is one uninterrupted call; the
    interleavings of its critical sections are in ServicePoolRuns. */
module ServicePool {
  import opened Basics
  import opened Errors

  /** A pooled connection. `shutdown` is the permanent state Close leaves it in. */
  class PooledConnection {
    const id: nat
    var lastUsed: int
    var useCount: nat
    var shutdown: bool

    constructor (id: nat, now: int)
      ensures this.id == id && lastUsed == now && useCount == 1 && !shutdown
    {
      this.id, lastUsed, useCount, shutdown := id, now, 1, false;
    }

    method Close()
      modifies this`shutdown
      ensures shutdown
    {
      shutdown := true;
    }

    /** Ready or Idle; `ready` are the ids of the connections the network keeps in such a state. */
    predicate IsHealthy(ready: set<nat>)
      reads this
    {
      id in ready && !shutdown
    }
  }

  datatype Strategy = RoundRobin | Random | LeastUsed | FirstAvailable | Unknown

  /** The elements of `s` that are in `keep`, in order. */
  function Filter<T(==)>(s: seq<T>, keep: set<T>): (r: seq<T>)
    ensures forall x | x in r :: x in s
  {
    if s == [] then []
    else Filter(s[..|s| - 1], keep) + (if s[|s| - 1] in keep then [s[|s| - 1]] else [])
  }

  lemma {:induction false} FilterKeeps<T>(s: seq<T>, keep: set<T>)
    ensures forall x :: x in Filter(s, keep) <==> x in s && x in keep
    ensures |Filter(s, keep)| <= |s|
    ensures Distinct(s) ==> Distinct(Filter(s, keep))
  {
    if s == [] {
    } else {
      var p, x := s[..|s| - 1], s[|s| - 1];
      FilterKeeps(p, keep);
      assert s == p + [x];
      assert Distinct(s) ==> x !in p && Distinct(p);
    }
  }

  /** Filtering goes element by element and keeps the order. */
  lemma {:induction false} FilterAppend<T>(a: seq<T>, b: seq<T>, keep: set<T>)
    ensures Filter(a + b, keep) == Filter(a, keep) + Filter(b, keep)
  {
    if b == [] {
      assert a + b == a;
    } else {
      var n := |a + b| - 1;
      assert (a + b)[..n] == a + b[..|b| - 1] && (a + b)[n] == b[|b| - 1];
      FilterAppend(a, b[..|b| - 1], keep);
    }
  }

  lemma FilterOne<T>(x: T, keep: set<T>)
    ensures Filter([x], keep) == if x in keep then [x] else []
  {
    assert [x][..0] == [];
  }

  lemma {:induction false} FilterKeepsOrder<T>(s: seq<T>, keep: set<T>)
    ensures KeepsOrder(Filter(s, keep), s)
  {
    if s == [] {
    } else {
      var p, x, r := s[..|s| - 1], s[|s| - 1], Filter(s[..|s| - 1], keep);
      FilterKeepsOrder(p, keep);
      forall i, j | 0 <= i < j < |Filter(s, keep)| ensures Precedes(s, Filter(s, keep)[i], Filter(s, keep)[j]) {
        if j < |r| {
          assert Precedes(p, r[i], r[j]);
        } else {
          assert r[i] in p;
          var a :| 0 <= a < |p| && p[a] == r[i];
          assert s[a] == r[i] && s[|s| - 1] == x;
        }
      }
    }
  }

  function RemoveAt<T>(s: seq<T>, i: nat): seq<T>
    requires i < |s|
  {
    s[..i] + s[i + 1..]
  }

  /** `i` is the first index of minimal count. */
  predicate FirstLeast(counts: seq<nat>, i: nat) {
    && i < |counts|
    && (forall j | 0 <= j < |counts| :: counts[i] <= counts[j])
    && (forall j | 0 <= j < i :: counts[i] < counts[j])
  }

  function LeastIndex(counts: seq<nat>): (i: nat)
    requires counts != []
    ensures FirstLeast(counts, i)
  {
    if |counts| == 1 then 0
    else
      var i, last := LeastIndex(counts[..|counts| - 1]), |counts| - 1;
      if counts[last] < counts[i] then last else i
  }

  /** The first true position. */
  function FirstTrue(flags: seq<bool>): (r: Option<nat>)
    ensures r.None? ==> forall j | 0 <= j < |flags| :: !flags[j]
    ensures r.Some? ==> r.value < |flags| && flags[r.value] && forall j | 0 <= j < r.value :: !flags[j]
  {
    if flags == [] then None
    else
      var r, last := FirstTrue(flags[..|flags| - 1]), |flags| - 1;
      if r.Some? then r else if flags[last] then Some(last) else None
  }

  /** The index a strategy picks among connections with these use counts and health flags. */
  function PickIndex(strategy: Strategy, counts: seq<nat>, healthy: seq<bool>, roundRobin: nat, random: nat): (r: Option<nat>)
    requires |counts| == |healthy|
    ensures r.Some? ==> r.value < |counts|
    ensures r.None? <==> counts == [] || (strategy == FirstAvailable && forall j | 0 <= j < |healthy| :: !healthy[j])
    ensures r.Some? && strategy == LeastUsed ==> FirstLeast(counts, r.value)
    ensures r.Some? && strategy == FirstAvailable ==>
      healthy[r.value] && forall j | 0 <= j < r.value :: !healthy[j]
  {
    if counts == [] then None
    else match strategy
      case RoundRobin => Some(roundRobin % |counts|)
      case Random => Some(random % |counts|)
      case LeastUsed => Some(LeastIndex(counts))
      case FirstAvailable => FirstTrue(healthy)
      case Unknown => Some(0)
  }

  /** How many turns from now round robin comes to position `k` of `n`. */
  function TurnsUntil(n: nat, turn: nat, k: nat): (j: nat)
    requires k < n
    ensures j < n
  {
    if k >= turn % n then k - turn % n else k + n - turn % n
  }

  /** On an unchanged list, of as many consecutive turns of round robin as there are positions
      exactly one picks position `k`. */
  lemma RoundRobinTakesTurns(counts: seq<nat>, healthy: seq<bool>, turn: nat, random: nat, k: nat, i: nat)
    requires k < |counts| == |healthy| && i < |counts|
    ensures PickIndex(RoundRobin, counts, healthy, turn + i, random) == Some(k) <==> i == TurnsUntil(|counts|, turn, k)
  {
    GoRound(|counts|, turn, i);
  }

  lemma {:induction false} GoRound(n: nat, turn: nat, i: nat)
    requires i < n
    ensures (turn + i) % n == if turn % n + i < n then turn % n + i else turn % n + i - n
  {
    if i == 0 {
    } else {
      GoRound(n, turn, i - 1);
      NextMod(n, turn + i - 1);
    }
  }

  lemma NextMod(n: nat, x: nat)
    requires n > 0
    ensures (x + 1) % n == if x % n + 1 < n then x % n + 1 else 0
  {
    var q, m := x / n, x % n;
    assert x == q * n + m;
    if m + 1 < n {
      Remainder(n, q, m + 1, x + 1);
    } else {
      assert x + 1 == (q + 1) * n;
      Remainder(n, q + 1, 0, x + 1);
    }
  }

  lemma Remainder(n: nat, q: nat, m: nat, x: nat)
    requires m < n && x == q * n + m
    ensures x % n == m
  {
    var q', m' := x / n, x % n;
    assert x == q' * n + m';
    if q' > q {
      MultiplesApart(n, q, q');
    } else if q' < q {
      MultiplesApart(n, q', q);
    }
  }

  lemma {:induction false} MultiplesApart(n: nat, a: nat, b: nat)
    requires a < b
    ensures b * n >= a * n + n
  {
    assert b * n == (b - 1) * n + n;
    if b == a + 1 {
    } else {
      MultiplesApart(n, a, b - 1);
    }
  }

  /** Every position has a random value that picks it. */
  lemma RandomReaches(counts: seq<nat>, healthy: seq<bool>, turn: nat, k: nat)
    requires k < |counts| == |healthy|
    ensures PickIndex(Random, counts, healthy, turn, k) == Some(k)
  {
  }

  /** The list once room is made for one more. */
  function RoomFor<T>(s: seq<T>, counts: seq<nat>, maxConns: int): seq<T>
    requires |counts| == |s|
  {
    if |s| >= Max(1, maxConns) then RemoveAt(s, LeastIndex(counts)) else s
  }

  /** A full list loses its first least-used element, any other nothing. */
  lemma RoomForMeans<T>(s: seq<T>, counts: seq<nat>, maxConns: int)
    requires |counts| == |s|
    ensures |s| < Max(1, maxConns) ==> RoomFor(s, counts, maxConns) == s
    ensures |s| >= Max(1, maxConns) ==>
      exists i: nat :: FirstLeast(counts, i) && RoomFor(s, counts, maxConns) == s[..i] + s[i + 1..]
  {
    if |s| >= Max(1, maxConns) {
      assert FirstLeast(counts, LeastIndex(counts));
    }
  }

  lemma {:induction false} LeastIsFirst(counts: seq<nat>, i: nat)
    requires counts != [] && FirstLeast(counts, i)
    ensures i == LeastIndex(counts)
  {
    var j := LeastIndex(counts);
    assert counts[i] <= counts[j] <= counts[i];
  }

  /** What the environment contributes to one selection: the instant, the ids of connections
      that are Ready or Idle when pruned, when scanned and when confirmed, the random index. */
  datatype Glance = Glance(now: int, prune: set<nat>, scan: set<nat>, confirm: set<nat>, random: nat)

  function CountsOf(conns: seq<PooledConnection>): (r: seq<nat>)
    reads set c | c in conns
    ensures |r| == |conns| && forall i | 0 <= i < |conns| :: r[i] == conns[i].useCount
  {
    seq(|conns|, i requires 0 <= i < |conns| reads set c | c in conns => conns[i].useCount)
  }

  function FlagsOf(conns: seq<PooledConnection>, ready: set<nat>): (r: seq<bool>)
    reads set c | c in conns
    ensures |r| == |conns| && forall i | 0 <= i < |conns| :: r[i] == conns[i].IsHealthy(ready)
  {
    seq(|conns|, i requires 0 <= i < |conns| reads set c | c in conns => conns[i].IsHealthy(ready))
  }

  ghost function HealthyOf(conns: seq<PooledConnection>, ready: set<nat>): set<PooledConnection>
    reads set c | c in conns
  {
    set c | c in conns && c.IsHealthy(ready)
  }

  /** `conn` stands at the first position of minimal use count. */
  ghost predicate LeastUsedAmong(conns: seq<PooledConnection>, conn: PooledConnection?)
    reads set c | c in conns
  {
    exists i | 0 <= i < |conns| :: conns[i] == conn
      && (forall j | 0 <= j < |conns| :: conns[i].useCount <= conns[j].useCount)
      && (forall j | 0 <= j < i :: conns[i].useCount < conns[j].useCount)
  }

  /** `conn` stands at the first position that reads healthy. */
  ghost predicate FirstHealthyAmong(conns: seq<PooledConnection>, ready: set<nat>, conn: PooledConnection?)
    reads set c | c in conns
  {
    exists i | 0 <= i < |conns| :: conns[i] == conn && conns[i].IsHealthy(ready)
      && forall j | 0 <= j < i :: !conns[j].IsHealthy(ready)
  }

  lemma RoomIsMadeIn(conns: seq<PooledConnection>, maxConns: int)
    requires |conns| >= Max(1, maxConns)
    ensures exists i | 0 <= i < |conns| ::
      LeastUsedAmong(conns, conns[i]) && RoomFor(conns, CountsOf(conns), maxConns) == conns[..i] + conns[i + 1..]
  {
    var counts := CountsOf(conns);
    var i := LeastIndex(counts);
    assert RoomFor(conns, counts, maxConns) == conns[..i] + conns[i + 1..];
    assert LeastUsedAmong(conns, conns[i]);
  }

  ghost function Confirmed(strategy: Strategy, g: Glance, kept: seq<PooledConnection>, roundRobin: nat): PooledConnection?
    reads set c | c in kept
  {
    match PickIndex(strategy, CountsOf(kept), FlagsOf(kept, g.scan), roundRobin, g.random)
    case None => null
    case Some(i) => if kept[i].IsHealthy(g.confirm) then kept[i] else null
  }

  lemma AllHealthyAreConfirmed(strategy: Strategy, g: Glance, kept: seq<PooledConnection>, roundRobin: nat)
    requires kept != []
    requires forall i | 0 <= i < |kept| :: kept[i].IsHealthy(g.scan) && kept[i].IsHealthy(g.confirm)
    ensures Confirmed(strategy, g, kept, roundRobin) != null
  {
    assert FlagsOf(kept, g.scan)[0];
  }

  class ServiceConnectionPool {
    var connections: seq<PooledConnection>
    var roundRobinIndex: nat
    var lastUsed: int

    ghost predicate Valid()
      reads this, set c | c in connections
    {
      && Distinct(connections)
      && forall c | c in connections :: c.lastUsed <= lastUsed
    }

    function Counts(): seq<nat>
      reads this, set c | c in connections
    {
      CountsOf(connections)
    }

    constructor (now: int)
      ensures Valid() && connections == [] && lastUsed == now
    {
      connections, roundRobinIndex, lastUsed := [], 0, now;
    }

    ghost function Healthy(ready: set<nat>): set<PooledConnection>
      reads this, set c | c in connections
    {
      HealthyOf(connections, ready)
    }

    /** Splits the list into what stays and what the caller must close. */
    method CleanupUnhealthyLocked(ready: set<nat>) returns (unhealthy: seq<PooledConnection>)
      modifies this`connections
      ensures connections == Filter(old(connections), old(Healthy(ready)))
      ensures KeepsOrder(connections, old(connections))
      ensures forall c :: c in connections <==> c in old(connections) && c.id in ready && !c.shutdown
      ensures forall c :: c in unhealthy <==> c in old(connections) && c !in connections
    {
      var healthy: seq<PooledConnection> := [];
      unhealthy := [];
      ghost var keep := Healthy(ready);
      for i := 0 to |connections|
        invariant healthy == Filter(connections[..i], keep)
        invariant forall c :: c in unhealthy <==> c in connections[..i] && c !in keep
      {
        assert connections[..i + 1][..i] == connections[..i];
        if connections[i].IsHealthy(ready) {
          healthy := healthy + [connections[i]];
        } else {
          unhealthy := unhealthy + [connections[i]];
        }
      }
      assert connections[..|connections|] == connections;
      FilterKeeps(connections, keep);
      FilterKeepsOrder(connections, keep);
      connections := healthy;
    }

    /** The first connection of minimal use count, by the scan both callers use. */
    method LeastUsedIndex() returns (index: nat)
      requires connections != []
      ensures FirstLeast(Counts(), index)
    {
      var minCount: int := -1;
      index := 0;
      for i := 0 to |connections|
        invariant index <= i && (minCount == -1 <==> i == 0)
        invariant i > 0 ==> index < i && minCount == connections[index].useCount
        invariant i > 0 ==> forall j | 0 <= j < i :: minCount <= connections[j].useCount
        invariant forall j | 0 <= j < index :: minCount < connections[j].useCount
      {
        if minCount == -1 || connections[i].useCount < minCount {
          minCount, index := connections[i].useCount, i;
        }
      }
    }

    /** Removes a connection of minimal use count and leaves the others in order. */
    method EvictLeastUsedLocked() returns (evicted: PooledConnection?, ghost index: nat)
      modifies this`connections
      ensures old(connections) == [] ==> evicted == null && connections == []
      ensures old(connections) != [] ==>
        && FirstLeast(old(Counts()), index) && evicted == old(connections)[index]
        && connections == RemoveAt(old(connections), index)
    {
      if |connections| == 0 {
        return null, 0;
      }
      var i := LeastUsedIndex();
      evicted, index := connections[i], i;
      connections := connections[..i] + connections[i + 1..];
    }

    /** What one selection hands out, if anything: the strategy's pick among the connections
        that survive pruning, provided it is still healthy when confirmed. */
    ghost function Choice(strategy: Strategy, g: Glance): PooledConnection?
      reads this, set c | c in connections
    {
      Confirmed(strategy, g, Kept(g), roundRobinIndex)
    }

    ghost function Kept(g: Glance): (kept: seq<PooledConnection>)
      reads this, set c | c in connections
      ensures forall c | c in kept :: c in connections
    {
      Filter(connections, Healthy(g.prune))
    }

    /** What survives both prunings, when the first selection hands out nothing. */
    ghost function KeptTwice(early: Glance, late: Glance): (kept: seq<PooledConnection>)
      reads this, set c | c in connections
      ensures forall c | c in kept :: c in connections
    {
      Filter(Kept(early), HealthyOf(Kept(early), late.prune))
    }

    function Turn(strategy: Strategy, kept: seq<PooledConnection>): nat
      reads this
    {
      roundRobinIndex + if strategy == RoundRobin && kept != [] then 1 else 0
    }

    /** What the repeated selection under createMu hands out after the first one failed. */
    ghost function LateChoice(strategy: Strategy, early: Glance, late: Glance): PooledConnection?
      reads this, set c | c in connections
    {
      Confirmed(strategy, late, KeptTwice(early, late), Turn(strategy, Kept(early)))
    }

    /** The listed connection a whole call reuses, if any. */
    ghost function Reused(strategy: Strategy, early: Glance, late: Glance): PooledConnection?
      reads this, set c | c in connections
    {
      if Choice(strategy, early) != null then Choice(strategy, early) else LateChoice(strategy, early, late)
    }

    /** The connections a whole call leaves in the list, apart from one it creates. */
    ghost function Remaining(strategy: Strategy, maxConns: int, early: Glance, late: Glance): seq<PooledConnection>
      reads this, set c | c in connections
    {
      if Choice(strategy, early) != null then Kept(early)
      else if LateChoice(strategy, early, late) != null then KeptTwice(early, late)
      else RoomFor(KeptTwice(early, late), CountsOf(KeptTwice(early, late)), maxConns)
    }

    /** Under the least-used strategy what is reused is the first least-used connection of those
        left in the list; under first-available the first one that read healthy. */
    lemma ReusedIsBest(strategy: Strategy, maxConns: int, early: Glance, late: Glance)
      requires Reused(strategy, early, late) != null
      ensures var conn, rest := Reused(strategy, early, late), Remaining(strategy, maxConns, early, late);
        && conn in rest && conn in connections
        && (strategy == LeastUsed ==> LeastUsedAmong(rest, conn))
        && (strategy == FirstAvailable ==>
              FirstHealthyAmong(rest, (if Choice(strategy, early) != null then early else late).scan, conn))
    {
    }

    /** When some connection survives pruning and the survivors all read healthy, a call reuses
        one of them, whatever the strategy. */
    lemma MustReuse(strategy: Strategy, maxConns: int, early: Glance, late: Glance)
      requires exists c | c in connections :: c.IsHealthy(early.prune)
      requires forall c | c in connections && c.IsHealthy(early.prune) :: c.id in early.scan && c.id in early.confirm
      ensures Reused(strategy, early, late) != null
      ensures Remaining(strategy, maxConns, early, late) == Kept(early)
    {
      var kept := Kept(early);
      FilterKeeps(connections, Healthy(early.prune));
      forall i | 0 <= i < |kept| ensures kept[i].IsHealthy(early.scan) && kept[i].IsHealthy(early.confirm) {
        assert kept[i] in kept;
      }
      var c :| c in connections && c.IsHealthy(early.prune);
      assert c in kept;
      AllHealthyAreConfirmed(strategy, early, kept, roundRobinIndex);
    }

    /** A call that reuses nothing leaves a list below its limit as it is, and takes the first
        least-used connection from a full one. */
    lemma RoomIsMade(strategy: Strategy, maxConns: int, early: Glance, late: Glance)
      requires Reused(strategy, early, late) == null
      ensures var kept, rest := KeptTwice(early, late), Remaining(strategy, maxConns, early, late);
        && (|kept| < Max(1, maxConns) ==> rest == kept)
        && (|kept| >= Max(1, maxConns) ==>
              exists i | 0 <= i < |kept| :: LeastUsedAmong(kept, kept[i]) && rest == kept[..i] + kept[i + 1..])
    {
      if |KeptTwice(early, late)| >= Max(1, maxConns) {
        RoomIsMadeIn(KeptTwice(early, late), maxConns);
      }
    }

    method SelectConnection(strategy: Strategy, g: Glance) returns (conn: PooledConnection?)
      modifies this`roundRobinIndex
      ensures conn == match old(PickIndex(strategy, Counts(), FlagsOf(connections, g.scan), roundRobinIndex, g.random))
                      case None => null
                      case Some(i) => connections[i]
      ensures roundRobinIndex == old(Turn(strategy, connections))
      ensures conn == null <==>
        connections == [] || (strategy == FirstAvailable && forall c | c in connections :: !c.IsHealthy(g.scan))
      ensures conn != null && strategy == LeastUsed ==> LeastUsedAmong(connections, conn)
      ensures conn != null && strategy == FirstAvailable ==> FirstHealthyAmong(connections, g.scan, conn)
      ensures conn != null && strategy == RoundRobin ==>
        conn == connections[old(roundRobinIndex) % |connections|] && roundRobinIndex == old(roundRobinIndex) + 1
      ensures conn != null && strategy == Random ==> conn == connections[g.random % |connections|]
      ensures conn != null && strategy.Unknown? ==> conn == connections[0]
    {
      if |connections| == 0 {
        return null;
      }
      match strategy {
        case RoundRobin =>
          conn := connections[roundRobinIndex % |connections|];
          roundRobinIndex := roundRobinIndex + 1;
        case Random =>
          conn := connections[g.random % |connections|];
        case LeastUsed =>
          var i := LeastUsedIndex();
          assert i == LeastIndex(Counts());
          conn := connections[i];
        case FirstAvailable =>
          for i := 0 to |connections|
            invariant forall j | 0 <= j < i :: !FlagsOf(connections, g.scan)[j]
          {
            if connections[i].IsHealthy(g.scan) {
              assert FlagsOf(connections, g.scan)[i];
              return connections[i];
            }
          }
          return null;
        case Unknown =>
          conn := connections[0];
      }
    }

    /** Closes the given connections one by one. */
    static method ClosePooledConnections(conns: seq<PooledConnection>)
      modifies (set c | c in conns)`shutdown
      ensures forall c | c in conns :: c.shutdown
    {
      for i := 0 to |conns|
        invariant forall c | c in conns[..i] :: c.shutdown
      {
        conns[i].Close();
      }
    }

    /** Picks, confirms and marks a connection as used, on an already pruned list. */
    method PickConfirmed(strategy: Strategy, g: Glance) returns (conn: PooledConnection?)
      modifies this`roundRobinIndex, (set c | c in connections)`useCount, (set c | c in connections)`lastUsed
      ensures conn == old(Confirmed(strategy, g, connections, roundRobinIndex))
      ensures roundRobinIndex == old(Turn(strategy, connections))
      ensures conn != null ==> conn in connections && !conn.shutdown && conn.id in g.confirm
      ensures conn != null ==> conn.lastUsed == g.now && conn.useCount == old(conn.useCount) + 1
      ensures forall c | c in connections && c != conn :: c.lastUsed == old(c.lastUsed) && c.useCount == old(c.useCount)
    {
      conn := null;
      if |connections| > 0 {
        conn := SelectConnection(strategy, g);
        if conn != null && conn.IsHealthy(g.confirm) {
          assert conn in connections;
          conn.useCount := conn.useCount + 1;
          conn.lastUsed := g.now;
        } else {
          conn := null;
        }
      }
    }

    /** Stamps the pool and drops the unhealthy connections, which the caller closes later. */
    method Prune(g: Glance) returns (unhealthy: seq<PooledConnection>)
      requires Valid() && lastUsed <= g.now
      modifies this`connections, this`lastUsed
      ensures Valid() && lastUsed == g.now && connections == old(Kept(g)) && |connections| <= |old(connections)|
      ensures KeepsOrder(connections, old(connections))
      ensures forall c :: c in connections <==> c in old(connections) && c.id in g.prune && !c.shutdown
      ensures forall c :: c in unhealthy <==> c in old(connections) && c !in connections
    {
      lastUsed := g.now;
      assert Healthy(g.prune) == old(Healthy(g.prune));
      FilterKeeps(connections, Healthy(g.prune));
      unhealthy := CleanupUnhealthyLocked(g.prune);
    }

    /** Prunes, then reuses a connection if the strategy's choice is still healthy. Whatever
        was pruned is closed, and nothing else is. */
    method SelectReusableConnection(strategy: Strategy, g: Glance) returns (conn: PooledConnection?)
      requires Valid() && lastUsed <= g.now
      modifies this, set c | c in connections
      ensures Valid() && lastUsed == g.now
      ensures connections == old(Kept(g)) && conn == old(Choice(strategy, g))
      ensures roundRobinIndex == old(Turn(strategy, Kept(g)))
      ensures forall c | c in old(connections) && c !in connections :: c.shutdown
      ensures forall c | c in old(connections) && c in connections :: c.shutdown == old(c.shutdown)
      ensures |connections| <= |old(connections)|
      ensures conn != null ==> conn in connections && !conn.shutdown && conn.id in g.confirm
      ensures conn != null ==> conn.lastUsed == g.now && conn.useCount == old(conn.useCount) + 1
      ensures forall c | c in old(connections) && c != conn :: c.lastUsed == old(c.lastUsed) && c.useCount == old(c.useCount)
    {
      var unhealthy := Prune(g);
      conn := PickConfirmed(strategy, g);
      ClosePooledConnections(unhealthy);
    }

    /** Makes room for one more connection, evicting at most one. */
    method PrepareForCreate(maxConns: int) returns (evicted: seq<PooledConnection>)
      requires Valid()
      modifies this`connections
      ensures Valid()
      ensures connections == old(RoomFor(connections, Counts(), maxConns))
      ensures forall c :: c in old(connections) <==> c in connections || c in evicted
      ensures |evicted| == |old(connections)| - |connections|
    {
      var limit := if maxConns <= 0 then 1 else maxConns;
      evicted := [];
      if |connections| >= limit {
        var conn, i := EvictLeastUsedLocked();
        LeastIsFirst(old(Counts()), i);
        if conn != null {
          evicted := [conn];
        }
      }
    }

    /** Takes the whole list and closes it. */
    method CloseAllConnections()
      modifies this`connections, (set c | c in connections)`shutdown
      ensures connections == [] && forall c | c in old(connections) :: c.shutdown
    {
      var conns := connections;
      connections := [];
      ClosePooledConnections(conns);
    }

    /** The part of GetConnection that makes room, creates and appends, all under createMu.
        `created` is what createFunc yields: a connection's id, or an error. */
    method Create(maxConns: int, created: Option<nat>, end: int) returns (conn: PooledConnection?)
      requires Valid() && lastUsed <= end
      modifies this`connections, this`lastUsed, (set c | c in connections)`shutdown
      ensures Valid() && lastUsed == if conn == null then old(lastUsed) else end
      ensures conn == null <==> created.None?
      ensures conn != null ==> fresh(conn) && conn.id == created.value && !conn.shutdown && conn.useCount == 1 && conn.lastUsed == end
      ensures connections == old(RoomFor(connections, Counts(), maxConns)) + if conn == null then [] else [conn]
      ensures forall c | c in connections :: c in old(connections) || c == conn
      ensures forall c | c in old(connections) && c !in connections :: c.shutdown
      ensures |connections| <= Max(|old(connections)|, Max(1, maxConns))
    {
      var evicted := PrepareForCreate(maxConns);
      ClosePooledConnections(evicted);
      if created.None? {
        return null;
      }
      conn := new PooledConnection(created.value, end);
      lastUsed := end;
      connections := connections + [conn];
    }

    /** A selection that hands out nothing leaves the connections it keeps as they were. */
    twostate lemma SeenAlike(ask: (Strategy, Glance, Glance))
      requires connections == old(Kept(ask.1)) && roundRobinIndex == old(Turn(ask.0, Kept(ask.1)))
      requires forall c | c in connections :: c.shutdown == old(c.shutdown) && c.useCount == old(c.useCount)
      ensures Kept(ask.2) == old(KeptTwice(ask.1, ask.2))
      ensures Choice(ask.0, ask.2) == old(LateChoice(ask.0, ask.1, ask.2))
      ensures CountsOf(Kept(ask.2)) == old(CountsOf(KeptTwice(ask.1, ask.2)))
    {
      var (strategy, early, late) := ask;
      var kept := Kept(late);
      assert Healthy(late.prune) == old(HealthyOf(Kept(early), late.prune));
      assert CountsOf(kept) == old(CountsOf(kept));
      assert FlagsOf(kept, late.scan) == old(FlagsOf(kept, late.scan));
    }

    twostate lemma CountsAlike(conns: seq<PooledConnection>)
      requires forall c | c in conns :: c.useCount == old(c.useCount)
      ensures CountsOf(conns) == old(CountsOf(conns))
    {
    }

    /** The part of GetConnection under createMu: the repeated selection, then a creation. */
    method ReuseOrCreate(strategy: Strategy, maxConns: int, late: Glance, created: Option<nat>, end: int)
      returns (conn: PooledConnection?)
      requires Valid() && lastUsed <= late.now <= end
      modifies this, set c | c in connections
      ensures Valid() && late.now <= lastUsed <= end
      ensures lastUsed == if conn != null && fresh(conn) then end else late.now
      ensures conn != null && fresh(conn) ==> conn.useCount == 1
      ensures conn != null && !fresh(conn) ==> conn.useCount == old(conn.useCount) + 1
      ensures forall c | c in old(connections) && c != conn :: c.useCount == old(c.useCount)
      ensures old(Choice(strategy, late)) != null ==>
        conn == old(Choice(strategy, late)) && connections == old(Kept(late))
      ensures old(Choice(strategy, late)) == null ==>
        && (conn == null <==> created.None?) && (conn != null ==> fresh(conn) && conn.id == created.value)
        && connections == old(RoomFor(Kept(late), CountsOf(Kept(late)), maxConns)) + if conn == null then [] else [conn]
      ensures forall c | c in connections :: c in old(connections) || fresh(c)
      ensures conn != null ==> conn in connections && !conn.shutdown && conn.lastUsed == lastUsed
      ensures forall c | c in old(connections) && c !in connections :: c.shutdown
      ensures |connections| <= Max(|old(connections)|, Max(1, maxConns))
    {
      conn := SelectReusableConnection(strategy, late);
      if conn == null {
        assert Counts() == old(CountsOf(Kept(late))) by {
          CountsAlike(connections);
        }
        conn := Create(maxConns, created, end);
      }
    }

    /** Since the earlier state this pool has served one call: by reuse, leaving the rest of the
        list, or by appending what createFunc yields, if anything. */
    twostate predicate Served(strategy: Strategy, maxConns: int, early: Glance, late: Glance,
                              created: Option<nat>, new conn: PooledConnection?)
      reads this
    {
      && (old(Reused(strategy, early, late)) != null ==>
            && conn == old(Reused(strategy, early, late))
            && connections == old(Remaining(strategy, maxConns, early, late)))
      && (old(Reused(strategy, early, late)) == null ==>
            && (conn == null <==> created.None?)
            && (conn != null ==> fresh(conn) && conn.id == created.value)
            && connections == old(Remaining(strategy, maxConns, early, late)) + if conn == null then [] else [conn])
    }

    /** A pool without connections has nothing to reuse and nothing to evict. */
    lemma NothingToReuse(strategy: Strategy, maxConns: int, early: Glance, late: Glance)
      requires connections == []
      ensures Reused(strategy, early, late) == null && Remaining(strategy, maxConns, early, late) == []
    {
    }

    /** `early` is the glance before createMu is taken, `late` the one under it. */
    method GetConnection(strategy: Strategy, maxConns: int, early: Glance, late: Glance, created: Option<nat>, end: int)
      returns (conn: PooledConnection?)
      requires Valid() && lastUsed <= early.now <= late.now <= end
      modifies this, set c | c in connections
      ensures Valid() && early.now <= lastUsed <= end
      ensures lastUsed == if conn != null && fresh(conn) then end
                          else if old(Choice(strategy, early)) != null then early.now else late.now
      ensures conn != null && fresh(conn) ==> conn.useCount == 1
      ensures conn != null && !fresh(conn) ==> conn.useCount == old(conn.useCount) + 1
      ensures forall c | c in old(connections) && c != conn :: c.useCount == old(c.useCount)
      ensures Served(strategy, maxConns, early, late, created, conn)
      ensures forall c | c in connections :: c in old(connections) || fresh(c)
      ensures conn != null ==> conn in connections && !conn.shutdown && conn.lastUsed == lastUsed
      ensures forall c | c in old(connections) && c !in connections :: c.shutdown
      ensures |connections| <= Max(|old(connections)|, Max(1, maxConns))
    {
      conn := SelectReusableConnection(strategy, early);
      if conn == null {
        SeenAlike((strategy, early, late));
        conn := ReuseOrCreate(strategy, maxConns, late, created, end);
      }
    }
  }
}
