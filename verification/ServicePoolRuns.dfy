/** One service pool under any interleaving of callers, closers and idle sweeps that find some
    connections idle but not the whole service: each such sweep collects in one step. Each
    section under the service mutex, each Close, each createFunc and each taking or giving
    back of createMu is one step. */
module ServicePoolRuns {
  import opened Basics
  import opened Errors
  import opened ServicePool

  datatype Config = Config(strategy: Strategy, maxConns: int)

  /** What follows once a thread has closed its pending connections. `result` is what the
      caller will get (None: an error). */
  datatype Next =
    | ToWait | ToReturn(result: Option<nat>) | ToPrepare | ToUnlock(result: Option<nat>) | ToCreate | ToUnlockClosed

  /** Where a thread is: a GetConnection caller from Calling on, a closer (CloseConnection or
      CloseAll) from WantsClose on, an idle sweep from Sweeping on. */
  datatype Place =
    | Calling                                   // before the first selection
    | Waiting                                   // wants createMu
    | Rechecking                                // holds createMu, before the second selection
    | Preparing                                 // ... before prepareForCreate
    | Creating                                  // ... createFunc running
    | Appending(conn: nat)                      // ... connection made, not yet in the list
    | Unlocking(result: Option<nat>)            // ... about to release createMu
    | WantsClose                                // closer, wants createMu
    | Emptying                                  // holds createMu, before taking the list
    | ClosedAll                                 // ... everything it took is closed
    | Sweeping                                  // idle sweep of a service not idle as a whole
    | Closing(pending: seq<nat>, after: Next)   // closing connections one by one
    | Done(result: Option<nat>)

  /** `next` is the id the next successful createFunc yields, `appended` every connection
      ever put in the list, `closed` those in Shutdown. */
  datatype Pool = Pool(
    list: seq<nat>, uses: map<nat, nat>, roundRobin: nat,
    createMu: Option<nat>, threads: seq<Place>,
    next: nat, appended: set<nat>, closed: set<nat>)

  /** One step of one thread, with what the environment decides: the health readings of a
      selection, whether createFunc succeeds, what an idle sweep considers idle. */
  datatype Step = Step(thread: nat, prune: set<nat>, scan: set<nat>, confirm: set<nat>, random: nat, ok: bool, idle: set<nat>)

  function UseOf(p: Pool, x: nat): nat { if x in p.uses then p.uses[x] else 0 }

  function Uses(p: Pool, conns: seq<nat>): (r: seq<nat>)
    ensures |r| == |conns| && forall i | 0 <= i < |conns| :: r[i] == UseOf(p, conns[i])
  {
    seq(|conns|, i requires 0 <= i < |conns| => UseOf(p, conns[i]))
  }

  function Reads(p: Pool, conns: seq<nat>, ready: set<nat>): (r: seq<bool>)
    ensures |r| == |conns| && forall i | 0 <= i < |conns| :: r[i] <==> conns[i] in ready && conns[i] !in p.closed
  {
    seq(|conns|, i requires 0 <= i < |conns| => conns[i] in ready && conns[i] !in p.closed)
  }

  /** Connections read as healthy when pruning: never one in Shutdown. */
  function Pruned(p: Pool, s: Step): set<nat> { s.prune - p.closed }

  function Kept(p: Pool, s: Step): seq<nat> { Filter(p.list, Pruned(p, s)) }

  function Dropped(p: Pool, s: Step): seq<nat> { Filter(p.list, Elements(p.list) - Pruned(p, s)) }

  /** The connection a selection hands out. */
  function Hit(c: Config, p: Pool, s: Step): Option<nat> {
    HitAmong(c, p, s, Kept(p, s))
  }

  function HitAmong(c: Config, p: Pool, s: Step, kept: seq<nat>): Option<nat> {
    match PickIndex(c.strategy, Uses(p, kept), Reads(p, kept, s.scan), p.roundRobin, s.random)
    case None => None
    case Some(i) => if kept[i] in s.confirm && kept[i] !in p.closed then Some(kept[i]) else None
  }

  function Used(p: Pool, hit: Option<nat>): map<nat, nat> {
    match hit
    case None => p.uses
    case Some(x) => p.uses[x := UseOf(p, x) + 1]
  }

  function At(p: Pool, t: nat, place: Place): Pool
    requires t < |p.threads|
  {
    p.(threads := p.threads[t := place])
  }

  function Select(c: Config, p: Pool, s: Step, after: Next): Pool
    requires s.thread < |p.threads|
  {
    var hit := Hit(c, p, s);
    At(p, s.thread, Closing(Dropped(p, s), after))
      .(list := Kept(p, s), uses := Used(p, hit),
        roundRobin := if c.strategy == RoundRobin && Kept(p, s) != [] then p.roundRobin + 1 else p.roundRobin)
  }

  predicate Enabled(p: Pool, s: Step) {
    && s.thread < |p.threads| && !p.threads[s.thread].Done?
    && (p.threads[s.thread].Waiting? || p.threads[s.thread].WantsClose? ==> p.createMu.None?)
  }

  function Limit(c: Config): int { Max(1, c.maxConns) }

  function Evicted(c: Config, p: Pool): Option<nat> {
    if |p.list| >= Limit(c) && p.list != [] then Some(LeastIndex(Uses(p, p.list))) else None
  }

  function AfterClosing(after: Next): Place {
    match after
    case ToWait => Waiting case ToReturn(r) => Done(r) case ToPrepare => Preparing
    case ToUnlock(r) => Unlocking(r) case ToCreate => Creating case ToUnlockClosed => ClosedAll
  }

  function Take(c: Config, p: Pool, s: Step): Pool
    requires Enabled(p, s)
  {
    var t := s.thread;
    match p.threads[t]
    case Calling =>
      var hit := Hit(c, p, s);
      Select(c, p, s, if hit.Some? then ToReturn(hit) else ToWait)
    case Waiting => At(p, t, Rechecking).(createMu := Some(t))
    case Rechecking =>
      var hit := Hit(c, p, s);
      Select(c, p, s, if hit.Some? then ToUnlock(hit) else ToPrepare)
    case Preparing =>
      (match Evicted(c, p)
       case None => At(p, t, Creating)
       case Some(i) => At(p, t, Closing([p.list[i]], ToCreate)).(list := RemoveAt(p.list, i)))
    case Creating =>
      if s.ok then At(p, t, Appending(p.next)).(next := p.next + 1) else At(p, t, Unlocking(None))
    case Appending(x) =>
      At(p, t, Unlocking(Some(x))).(list := p.list + [x], uses := p.uses[x := 1], appended := p.appended + {x})
    case Unlocking(r) => At(p, t, Done(r)).(createMu := None)
    case WantsClose => At(p, t, Emptying).(createMu := Some(t))
    case Emptying => At(p, t, Closing(p.list, ToUnlockClosed)).(list := [])
    case ClosedAll => At(p, t, Done(None)).(createMu := None)
    case Sweeping =>
      At(p, t, Closing(Filter(p.list, s.idle), ToReturn(None))).(list := Filter(p.list, Elements(p.list) - s.idle))
    case Closing(pending, after) =>
      if pending == [] then At(p, t, AfterClosing(after))
      else At(p, t, Closing(pending[1..], after)).(closed := p.closed + {pending[0]})
  }

  predicate Begins(place: Place) { place.Calling? || place.WantsClose? || place.Sweeping? }

  /** A run from an empty pool, with any mix of callers, closers and sweeps. */
  ghost predicate Run(c: Config, pools: seq<Pool>, steps: seq<Step>) {
    && |pools| == |steps| + 1
    && pools[0] == Pool([], map[], 0, None, pools[0].threads, 0, {}, {})
    && (forall t | 0 <= t < |pools[0].threads| :: Begins(pools[0].threads[t]))
    && forall i | 0 <= i < |steps| :: Enabled(pools[i], steps[i]) && pools[i + 1] == Take(c, pools[i], steps[i])
  }

  // ----- What the steps do ------------------------------------------------------------------

  /** A selection keeps exactly the open connections read as healthy, in order, and sends the
      others to be closed. */
  lemma SelectionPrunes(c: Config, p: Pool, s: Step)
    requires Enabled(p, s) && (p.threads[s.thread].Calling? || p.threads[s.thread].Rechecking?)
    ensures var p', place := Take(c, p, s), Take(c, p, s).threads[s.thread];
      && KeepsOrder(p'.list, p.list)
      && (forall x :: x in p'.list <==> x in p.list && x in s.prune && x !in p.closed)
      && place.Closing? && forall x :: x in place.pending <==> x in p.list && x !in p'.list
  {
    FilterKeepsOrder(p.list, Pruned(p, s));
    FilterKeeps(p.list, Pruned(p, s));
    FilterKeeps(p.list, Elements(p.list) - Pruned(p, s));
  }

  /** Position `i` holds the first least-used connection of the list. */
  predicate LeastUsedAt(p: Pool, list: seq<nat>, i: nat) {
    && i < |list|
    && (forall j | 0 <= j < |list| :: UseOf(p, list[i]) <= UseOf(p, list[j]))
    && (forall j | 0 <= j < i :: UseOf(p, list[i]) < UseOf(p, list[j]))
  }

  /** Position `i` holds the first open connection of the list that reads healthy. */
  predicate FirstHealthyAt(p: Pool, list: seq<nat>, ready: set<nat>, i: nat) {
    && i < |list| && list[i] in ready && list[i] !in p.closed
    && forall j | 0 <= j < i :: list[j] !in ready || list[j] in p.closed
  }

  lemma HitMeans(c: Config, p: Pool, s: Step, list: seq<nat>)
    ensures var hit := HitAmong(c, p, s, list);
      hit.Some? ==>
        && hit.value in list && hit.value in s.confirm && hit.value !in p.closed
        && (c.strategy == LeastUsed ==> exists i: nat :: LeastUsedAt(p, list, i) && list[i] == hit.value)
        && (c.strategy == FirstAvailable ==> exists i: nat :: FirstHealthyAt(p, list, s.scan, i) && list[i] == hit.value)
  {
    var pick := PickIndex(c.strategy, Uses(p, list), Reads(p, list, s.scan), p.roundRobin, s.random);
    if pick.Some? {
      var i := pick.value;
      assert c.strategy == LeastUsed ==> LeastUsedAt(p, list, i);
      assert c.strategy == FirstAvailable ==> FirstHealthyAt(p, list, s.scan, i);
    }
  }

  /** It hands out at most one of them, confirmed as healthy, whose use count alone grows, and
      which is what its strategy promises. */
  lemma SelectionHandsOut(c: Config, p: Pool, s: Step)
    requires Enabled(p, s) && (p.threads[s.thread].Calling? || p.threads[s.thread].Rechecking?)
    ensures var p', after := Take(c, p, s), Take(c, p, s).threads[s.thread].after;
      match Hit(c, p, s)
      case None => after == (if p.threads[s.thread].Calling? then ToWait else ToPrepare) && p'.uses == p.uses
      case Some(x) =>
        && after == (if p.threads[s.thread].Calling? then ToReturn(Some(x)) else ToUnlock(Some(x)))
        && x in p'.list && x in s.confirm && x !in p.closed && p'.uses == p.uses[x := UseOf(p, x) + 1]
        && (c.strategy == LeastUsed ==> exists i: nat :: LeastUsedAt(p, p'.list, i) && p'.list[i] == x)
        && (c.strategy == FirstAvailable ==> exists i: nat :: FirstHealthyAt(p, p'.list, s.scan, i) && p'.list[i] == x)
  {
    HitMeans(c, p, s, Kept(p, s));
  }

  /** A full list loses its first least-used connection, any other nothing. */
  lemma EvictionTakesLeastUsed(c: Config, p: Pool, s: Step)
    requires Enabled(p, s) && p.threads[s.thread].Preparing?
    ensures var p', place := Take(c, p, s), Take(c, p, s).threads[s.thread];
      if |p.list| < Max(1, c.maxConns) then p'.list == p.list && place == Creating
      else exists i: nat ::
        LeastUsedAt(p, p.list, i) && p'.list == p.list[..i] + p.list[i + 1..] && place == Closing([p.list[i]], ToCreate)
  {
    if |p.list| >= Max(1, c.maxConns) {
      assert LeastUsedAt(p, p.list, Evicted(c, p).value);
    }
  }

  /** Nothing reorders the list: an append puts the new connection last with a use count of one. */
  lemma AppendComesLast(c: Config, p: Pool, s: Step)
    requires Enabled(p, s) && p.threads[s.thread].Appending?
    ensures var p', x := Take(c, p, s), p.threads[s.thread].conn;
      p'.list == p.list + [x] && p'.uses == p.uses[x := 1] && p'.roundRobin == p.roundRobin
  {
  }

  /** Anything else only takes out, leaves the rest in order, and but for selections touches
      neither the use counts nor the round-robin turn. */
  lemma OthersKeepOrder(c: Config, p: Pool, s: Step)
    requires Enabled(p, s) && !p.threads[s.thread].Appending?
    ensures KeepsOrder(Take(c, p, s).list, p.list) && forall x | x in Take(c, p, s).list :: x in p.list
    ensures !p.threads[s.thread].Calling? && !p.threads[s.thread].Rechecking? ==>
      Take(c, p, s).uses == p.uses && Take(c, p, s).roundRobin == p.roundRobin
  {
    match p.threads[s.thread]
    case Calling => SelectionPrunes(c, p, s);
    case Rechecking => SelectionPrunes(c, p, s);
    case Sweeping => FilterKeepsOrder(p.list, Elements(p.list) - s.idle);
    case Preparing =>
      if Evicted(c, p).Some? {
        RemovalKeepsOrder(p.list, Evicted(c, p).value);
      } else {
        KeepsOwnOrder(p.list);
      }
    case _ => KeepsOwnOrder(p.list);
  }

  /** Under round robin every selection that has something to select from moves the turn by one;
      no other strategy moves it. */
  lemma TurnsMove(c: Config, p: Pool, s: Step)
    requires Enabled(p, s) && (p.threads[s.thread].Calling? || p.threads[s.thread].Rechecking?)
    ensures Take(c, p, s).roundRobin
         == p.roundRobin + if c.strategy == RoundRobin && Take(c, p, s).list != [] then 1 else 0
  {
  }

  lemma KeepsOwnOrder(s: seq<nat>)
    ensures KeepsOrder(s, s)
  {
    forall i, j | 0 <= i < j < |s| ensures Precedes(s, s[i], s[j]) {
    }
  }

  lemma RemovalKeepsOrder(s: seq<nat>, i: nat)
    requires i < |s|
    ensures KeepsOrder(RemoveAt(s, i), s)
  {
    var r := RemoveAt(s, i);
    forall a, b | 0 <= a < b < |r| ensures Precedes(s, r[a], r[b]) {
      assert r[a] == s[if a < i then a else a + 1] && r[b] == s[if b < i then b else b + 1];
    }
  }

  /** A sweep takes exactly the idle connections and sends them to be closed. */
  lemma SweepTakesIdle(c: Config, p: Pool, s: Step)
    requires Enabled(p, s) && p.threads[s.thread].Sweeping?
    ensures var p', place := Take(c, p, s), Take(c, p, s).threads[s.thread];
      && (forall x :: x in p'.list <==> x in p.list && x !in s.idle)
      && place.Closing? && forall x :: x in place.pending <==> x in p.list && x in s.idle
  {
    FilterKeeps(p.list, s.idle);
    FilterKeeps(p.list, Elements(p.list) - s.idle);
  }

  // ----- createMu -------------------------------------------------------------------------

  predicate HoldsCreateMu(place: Place) {
    match place
    case Rechecking => true case Preparing => true case Creating => true case Appending(_) => true
    case Unlocking(_) => true case Emptying => true case ClosedAll => true
    case Closing(_, after) => !after.ToWait? && !after.ToReturn?
    case _ => false
  }

  ghost predicate MuExact(p: Pool) {
    forall t | 0 <= t < |p.threads| :: HoldsCreateMu(p.threads[t]) <==> p.createMu == Some(t)
  }

  lemma StepKeepsMu(c: Config, p: Pool, s: Step)
    requires MuExact(p) && Enabled(p, s)
    ensures MuExact(Take(c, p, s)) && |Take(c, p, s).threads| == |p.threads|
  {
  }

  // ----- No connection is lost --------------------------------------------------------------

  function One(b: bool): nat { if b then 1 else 0 }

  /** How often `x` occurs. */
  function Occurs(s: seq<nat>, x: nat): nat {
    if s == [] then 0 else Occurs(s[..|s| - 1], x) + One(s[|s| - 1] == x)
  }

  lemma {:induction false} OccursAppend(a: seq<nat>, b: seq<nat>, x: nat)
    ensures Occurs(a + b, x) == Occurs(a, x) + Occurs(b, x)
  {
    if b == [] {
      assert a + b == a;
    } else {
      var n := |a + b| - 1;
      assert (a + b)[..n] == a + b[..|b| - 1] && (a + b)[n] == b[|b| - 1];
      OccursAppend(a, b[..|b| - 1], x);
    }
  }

  lemma {:induction false} OccursIff(s: seq<nat>, x: nat)
    ensures Occurs(s, x) > 0 <==> x in s
  {
    if s == [] {
    } else {
      assert s == s[..|s| - 1] + [s[|s| - 1]];
      OccursIff(s[..|s| - 1], x);
    }
  }

  lemma OccursOnce(y: nat, x: nat)
    ensures Occurs([y], x) == One(x == y)
  {
    assert [y][..0] == [];
  }

  /** How often connection `x` is pending in one thread, and in all of them. */
  function Pending(place: Place, x: nat): nat {
    if place.Closing? then Occurs(place.pending, x) else 0
  }

  function AllPending(threads: seq<Place>, x: nat): nat {
    if threads == [] then 0
    else AllPending(threads[..|threads| - 1], x) + Pending(threads[|threads| - 1], x)
  }

  lemma {:induction false} PendingMoved(threads: seq<Place>, t: nat, place: Place, x: nat)
    requires t < |threads|
    ensures AllPending(threads[t := place], x) == AllPending(threads, x) - Pending(threads[t], x) + Pending(place, x)
  {
    var n := |threads| - 1;
    if t == n {
      assert threads[t := place][..n] == threads[..n];
    } else {
      PendingMoved(threads[..n], t, place, x);
      assert threads[t := place][..n] == threads[..n][t := place];
    }
  }

  /** The places connection `x` is in: the list, the pending closes of the threads, Shutdown. */
  function Count(p: Pool, x: nat): nat {
    Occurs(p.list, x) + AllPending(p.threads, x) + One(x in p.closed)
  }

  /** Connection `x` is in exactly one place once it has been appended. */
  predicate CountedOnce(p: Pool, x: nat) { Count(p, x) == One(x in p.appended) }

  ghost predicate Conserved(p: Pool) { forall x: nat :: CountedOnce(p, x) }

  lemma {:induction false} FilterOccurs(s: seq<nat>, keep: set<nat>, x: nat)
    ensures Occurs(Filter(s, keep), x) == if x in keep then Occurs(s, x) else 0
  {
    if s == [] {
    } else {
      var q, y := s[..|s| - 1], s[|s| - 1];
      FilterOccurs(q, keep, x);
      OccursAppend(Filter(q, keep), if y in keep then [y] else [], x);
      OccursOnce(y, x);
    }
  }

  lemma FilterSplits(s: seq<nat>, keep: set<nat>, x: nat)
    ensures Occurs(Filter(s, keep), x) + Occurs(Filter(s, Elements(s) - keep), x) == Occurs(s, x)
  {
    FilterOccurs(s, keep, x);
    FilterOccurs(s, Elements(s) - keep, x);
    OccursIff(s, x);
  }

  lemma RemoveAtCounts(s: seq<nat>, i: nat, x: nat)
    requires i < |s|
    ensures Occurs(s, x) == Occurs(RemoveAt(s, i), x) + Occurs([s[i]], x)
  {
    assert s == s[..i] + ([s[i]] + s[i + 1..]);
    OccursAppend(s[..i], [s[i]] + s[i + 1..], x);
    OccursAppend([s[i]], s[i + 1..], x);
    OccursAppend(s[..i], s[i + 1..], x);
  }

  /** Connections made but not yet appended are new. */
  ghost predicate Fresh(p: Pool) {
    && (forall x | x in p.appended :: x < p.next)
    && (forall t | 0 <= t < |p.threads| && p.threads[t].Appending? ::
          p.threads[t].conn < p.next && p.threads[t].conn !in p.appended)
  }

  lemma StepKeepsFresh(c: Config, p: Pool, s: Step)
    requires Enabled(p, s) && MuExact(p) && Fresh(p)
    ensures Fresh(Take(c, p, s))
  {
  }

  /** Thread `t` trades connection `x` with the list, Shutdown and the outside, losing nothing. */
  ghost predicate Trades(p: Pool, p': Pool, t: nat, x: nat) {
    && t < |p.threads| == |p'.threads| && p'.threads == p.threads[t := p'.threads[t]]
    && Occurs(p'.list, x) + Pending(p'.threads[t], x) + One(x in p'.closed) + One(x in p.appended)
       == Occurs(p.list, x) + Pending(p.threads[t], x) + One(x in p.closed) + One(x in p'.appended)
  }

  /** A list split in two, one half going to thread `t` as pending closes. */
  lemma SplitTrades(p: Pool, p': Pool, t: nat, keep: set<nat>, drop: set<nat>, x: nat)
    requires t < |p.threads| == |p'.threads| && p'.threads == p.threads[t := p'.threads[t]]
    requires !p.threads[t].Closing? && p'.threads[t].Closing?
    requires drop == Elements(p.list) - keep || keep == Elements(p.list) - drop
    requires p'.list == Filter(p.list, keep) && p'.threads[t].pending == Filter(p.list, drop)
    requires p'.closed == p.closed && p'.appended == p.appended
    ensures Trades(p, p', t, x)
  {
    if drop == Elements(p.list) - keep {
      FilterSplits(p.list, keep, x);
    } else {
      FilterSplits(p.list, drop, x);
    }
  }

  lemma SelectTrades(c: Config, p: Pool, s: Step, x: nat)
    requires Enabled(p, s) && (p.threads[s.thread].Calling? || p.threads[s.thread].Rechecking?)
    ensures Trades(p, Take(c, p, s), s.thread, x)
  {
    SplitTrades(p, Take(c, p, s), s.thread, Pruned(p, s), Elements(p.list) - Pruned(p, s), x);
  }

  lemma SweepTrades(c: Config, p: Pool, s: Step, x: nat)
    requires Enabled(p, s) && p.threads[s.thread].Sweeping?
    ensures Trades(p, Take(c, p, s), s.thread, x)
  {
    SplitTrades(p, Take(c, p, s), s.thread, Elements(p.list) - s.idle, s.idle, x);
  }

  /** One element leaves the list to be closed by thread `t`. */
  lemma RemovalTrades(p: Pool, p': Pool, t: nat, i: nat, x: nat)
    requires t < |p.threads| == |p'.threads| && p'.threads == p.threads[t := p'.threads[t]] && i < |p.list|
    requires !p.threads[t].Closing? && p'.threads[t].Closing? && p'.threads[t].pending == [p.list[i]]
    requires p'.list == RemoveAt(p.list, i) && p'.closed == p.closed && p'.appended == p.appended
    ensures Trades(p, p', t, x)
  {
    RemoveAtCounts(p.list, i, x);
  }

  lemma EvictTrades(c: Config, p: Pool, s: Step, x: nat)
    requires Enabled(p, s) && p.threads[s.thread].Preparing?
    ensures Trades(p, Take(c, p, s), s.thread, x)
  {
    if Evicted(c, p).Some? {
      RemovalTrades(p, Take(c, p, s), s.thread, Evicted(c, p).value, x);
    }
  }

  lemma AppendTrades(c: Config, p: Pool, s: Step, x: nat)
    requires Enabled(p, s) && Fresh(p) && p.threads[s.thread].Appending?
    ensures Trades(p, Take(c, p, s), s.thread, x)
  {
    OccursAppend(p.list, [p.threads[s.thread].conn], x);
    OccursOnce(p.threads[s.thread].conn, x);
  }

  /** A pending connection is not closed yet, so each is closed once. */
  lemma PendingIsOpen(p: Pool, t: nat, x: nat)
    requires CountedOnce(p, x) && t < |p.threads| && Pending(p.threads[t], x) > 0
    ensures x !in p.closed
  {
    PendingMoved(p.threads, t, Calling, x);
  }

  lemma CloseTrades(c: Config, p: Pool, s: Step, x: nat)
    requires Enabled(p, s) && CountedOnce(p, x) && p.threads[s.thread].Closing?
    ensures Trades(p, Take(c, p, s), s.thread, x)
  {
    var pending := p.threads[s.thread].pending;
    if pending != [] {
      assert pending == [pending[0]] + pending[1..];
      OccursAppend([pending[0]], pending[1..], x);
      OccursOnce(pending[0], x);
      if x == pending[0] {
        PendingIsOpen(p, s.thread, x);
      }
    }
  }

  /** Every step of every thread keeps the count of every connection. */
  lemma StepConserves(c: Config, p: Pool, s: Step, x: nat)
    requires Enabled(p, s) && Fresh(p) && CountedOnce(p, x)
    ensures CountedOnce(Take(c, p, s), x)
  {
    match p.threads[s.thread] {
      case Calling => SelectTrades(c, p, s, x);
      case Rechecking => SelectTrades(c, p, s, x);
      case Sweeping => SweepTrades(c, p, s, x);
      case Preparing => EvictTrades(c, p, s, x);
      case Appending(_) => AppendTrades(c, p, s, x);
      case Closing(_, _) => CloseTrades(c, p, s, x);
      case Emptying =>
      case _ =>
    }
    PendingMoved(p.threads, s.thread, Take(c, p, s).threads[s.thread], x);
  }

  // ----- Capacity, and what a finished close means -------------------------------------------

  /** A thread for which room has been made and which has not appended yet. */
  predicate HasRoom(place: Place) {
    place.Creating? || place.Appending? || (place.Closing? && place.after.ToCreate?)
  }

  predicate HasEmptied(place: Place) {
    place.ClosedAll? || (place.Closing? && place.after.ToUnlockClosed?)
  }

  ghost predicate Bounded(c: Config, p: Pool) {
    && |p.list| <= Limit(c)
    && (forall t | 0 <= t < |p.threads| && HasRoom(p.threads[t]) :: |p.list| < Limit(c))
    && (forall t | 0 <= t < |p.threads| && HasEmptied(p.threads[t]) :: p.list == [])
  }

  /** Only an append makes the list grow, and an eviction comes in time. */
  lemma ListSize(c: Config, p: Pool, s: Step)
    requires Enabled(p, s)
    ensures var place, p' := p.threads[s.thread], Take(c, p, s);
      && (place.Appending? ==> |p'.list| == |p.list| + 1)
      && (!place.Appending? ==> |p'.list| <= |p.list|)
      && (place.Preparing? ==> |p'.list| == if |p.list| >= Limit(c) then |p.list| - 1 else |p.list|)
      && (place.Emptying? ==> p'.list == [])
  {
    FilterKeeps(p.list, Pruned(p, s));
    FilterKeeps(p.list, Elements(p.list) - s.idle);
  }

  /** Room and emptiness are only claimed under createMu. */
  lemma ClaimsHoldMu(place: Place)
    requires HasRoom(place) || HasEmptied(place) || place.Appending?
    ensures HoldsCreateMu(place)
  {
  }

  lemma ClaimsArise(c: Config, p: Pool, s: Step)
    requires Enabled(p, s)
    ensures var place, place' := p.threads[s.thread], Take(c, p, s).threads[s.thread];
      && (HasRoom(place') ==> (HasRoom(place) && !place.Appending?) || place.Preparing?)
      && (HasEmptied(place') ==> HasEmptied(place) || place.Emptying?)
  {
  }

  lemma StepBounded(c: Config, p: Pool, s: Step)
    requires Enabled(p, s) && MuExact(p) && Bounded(c, p)
    ensures Bounded(c, Take(c, p, s))
  {
    var p' := Take(c, p, s);
    ListSize(c, p, s);
    ClaimsArise(c, p, s);
    assert p.threads[s.thread].Appending? ==> p.createMu == Some(s.thread);
    forall t | 0 <= t < |p'.threads| && t != s.thread && (HasRoom(p.threads[t]) || HasEmptied(p.threads[t]))
      ensures !p.threads[s.thread].Appending? && p'.threads[t] == p.threads[t]
    {
      ClaimsHoldMu(p.threads[t]);
    }
  }

  // ----- All runs -------------------------------------------------------------------------------

  ghost predicate Inv(c: Config, p: Pool) {
    MuExact(p) && Fresh(p) && Conserved(p) && Bounded(c, p)
  }

  lemma {:induction false} NothingPending(threads: seq<Place>, x: nat)
    requires forall t | 0 <= t < |threads| :: Begins(threads[t])
    ensures AllPending(threads, x) == 0
  {
    if threads == [] {
    } else {
      NothingPending(threads[..|threads| - 1], x);
    }
  }

  lemma StepKeepsInv(c: Config, p: Pool, s: Step)
    requires Inv(c, p) && Enabled(p, s)
    ensures Inv(c, Take(c, p, s))
  {
    StepKeepsMu(c, p, s);
    StepKeepsFresh(c, p, s);
    StepBounded(c, p, s);
    forall x: nat ensures CountedOnce(Take(c, p, s), x) {
      StepConserves(c, p, s, x);
    }
  }

  lemma {:induction false} InvAlways(c: Config, pools: seq<Pool>, steps: seq<Step>, i: nat)
    requires Run(c, pools, steps) && i < |pools|
    ensures Inv(c, pools[i])
  {
    if i == 0 {
      forall x: nat ensures CountedOnce(pools[0], x) {
        NothingPending(pools[0].threads, x);
      }
    } else {
      InvAlways(c, pools, steps, i - 1);
      StepKeepsInv(c, pools[i - 1], steps[i - 1]);
    }
  }

  /** In every reachable state every connection ever appended is in exactly one place: the
      list, one thread's pending closes, or Shutdown. */
  lemma NoConnectionLost(c: Config, pools: seq<Pool>, steps: seq<Step>, i: nat, x: nat)
    requires Run(c, pools, steps) && i < |pools|
    ensures var p := pools[i];
      Occurs(p.list, x) + AllPending(p.threads, x) + (if x in p.closed then 1 else 0)
      == if x in p.appended then 1 else 0
  {
    InvAlways(c, pools, steps, i);
    assert CountedOnce(pools[i], x);
  }

  /** No interleaving of reuse, creation, eviction, closing and sweeping exceeds the limit. */
  lemma CapacityKept(c: Config, pools: seq<Pool>, steps: seq<Step>, i: nat)
    requires Run(c, pools, steps) && i < |pools|
    ensures |pools[i].list| <= Max(1, c.maxConns)
  {
    InvAlways(c, pools, steps, i);
  }

  /** When a closer has finished its closes, the list is empty, no creation is under way, and
      every connection ever appended is in Shutdown or pending in another thread. */
  lemma FinishedCloseMeans(c: Config, pools: seq<Pool>, steps: seq<Step>, i: nat, t: nat)
    requires Run(c, pools, steps) && i < |pools| && t < |pools[i].threads| && pools[i].threads[t].ClosedAll?
    ensures var p := pools[i];
      && p.list == []
      && (forall u | 0 <= u < |p.threads| :: !p.threads[u].Creating? && !p.threads[u].Appending?)
      && (forall x | x in p.appended :: x in p.closed || AllPending(p.threads[t := Calling], x) > 0)
  {
    InvAlways(c, pools, steps, i);
    var p := pools[i];
    assert HoldsCreateMu(p.threads[t]) && HasEmptied(p.threads[t]);
    forall u | 0 <= u < |p.threads| ensures !p.threads[u].Creating? && !p.threads[u].Appending? {
      assert u != t ==> !HoldsCreateMu(p.threads[u]);
    }
    forall x | x in p.appended ensures x in p.closed || AllPending(p.threads[t := Calling], x) > 0 {
      NoConnectionLost(c, pools, steps, i, x);
      PendingMoved(p.threads, t, Calling, x);
    }
  }

  // ----- What callers get ---------------------------------------------------------------------------

  /** What a caller holds or is about to return: no error, and if a connection, an appended one. */
  predicate HoldsGood(p: Pool, place: Place) {
    match place
    case WantsClose => false
    case Emptying => false
    case ClosedAll => false
    case Sweeping => false
    case Unlocking(r) => r.Some? && r.value in p.appended
    case Done(r) => r.Some? && r.value in p.appended
    case Closing(_, ToReturn(r)) => r.Some? && r.value in p.appended
    case Closing(_, ToUnlock(r)) => r.Some? && r.value in p.appended
    case Closing(_, ToUnlockClosed) => false
    case _ => true
  }

  lemma StepKeepsGood(c: Config, p: Pool, s: Step, t: nat)
    requires Inv(c, p) && Enabled(p, s) && t < |p.threads| && HoldsGood(p, p.threads[t])
    requires s.thread == t && p.threads[t].Creating? ==> s.ok
    ensures HoldsGood(Take(c, p, s), Take(c, p, s).threads[t])
  {
    if s.thread == t && (p.threads[t].Calling? || p.threads[t].Rechecking?) {
      HitMeans(c, p, s, Kept(p, s));
      FilterKeeps(p.list, Pruned(p, s));
      var hit := Hit(c, p, s);
      if hit.Some? {
        OccursIff(p.list, hit.value);
        assert CountedOnce(p, hit.value);
      }
    }
  }

  /** A caller that gets an error had its own createFunc fail; any other that has finished got a
      connection that was in the list. */
  lemma {:induction false} ErrorsComeFromCreate(c: Config, pools: seq<Pool>, steps: seq<Step>, i: nat, t: nat)
    requires Run(c, pools, steps) && i < |pools| && t < |pools[0].threads| && pools[0].threads[t].Calling?
    requires forall k | 0 <= k < i && steps[k].thread == t ::
      t < |pools[k].threads| && (pools[k].threads[t].Creating? ==> steps[k].ok)
    ensures t < |pools[i].threads| && HoldsGood(pools[i], pools[i].threads[t])
    ensures pools[i].threads[t].Done? ==>
      pools[i].threads[t].result.Some? && pools[i].threads[t].result.value in pools[i].appended
  {
    if i == 0 {
    } else {
      ErrorsComeFromCreate(c, pools, steps, i - 1, t);
      InvAlways(c, pools, steps, i - 1);
      StepKeepsMu(c, pools[i - 1], steps[i - 1]);
      StepKeepsGood(c, pools[i - 1], steps[i - 1], t);
    }
  }

  // ----- Single flight ------------------------------------------------------------------------------

  /** Only callers, and every listed connection is read as healthy every time. */
  ghost predicate Calm(pools: seq<Pool>, steps: seq<Step>) {
    && |pools| == |steps| + 1 && (forall t | 0 <= t < |pools[0].threads| :: pools[0].threads[t].Calling?)
    && forall i | 0 <= i < |steps| :: Well(pools[i], steps[i])
  }

  predicate Well(p: Pool, s: Step) {
    forall x | x in p.list :: x in s.prune && x in s.scan && x in s.confirm
  }

  /** What a caller may carry once connection 0 exists, or before. */
  predicate ResultOk(p: Pool, r: Option<nat>) { r.Some? ==> r.value == 0 && p.next == 1 }

  predicate PlaceOk(p: Pool, place: Place) {
    match place
    case Calling => true
    case Waiting => true
    case Rechecking => true
    case Preparing => p.next == 0
    case Creating => p.next == 0
    case Appending(x) => x == 0 && p.next == 1 && p.list == []
    case Unlocking(r) => ResultOk(p, r)
    case Done(r) => ResultOk(p, r)
    case Closing(pending, after) =>
      pending == [] &&
      (match after
       case ToWait => true
       case ToReturn(r) => r.Some? && ResultOk(p, r)
       case ToPrepare => p.next == 0
       case ToUnlock(r) => ResultOk(p, r)
       case ToCreate => p.next == 0
       case ToUnlockClosed => false)
    case _ => false
  }

  /** At most one connection exists, and while it is not listed its maker holds createMu. */
  ghost predicate OneFlight(p: Pool) {
    && p.closed == {} && p.next <= 1
    && (p.list == [] || (p.list == [0] && p.next == 1))
    && (p.next == 1 && p.list == [] ==>
          p.createMu.Some? && p.createMu.value < |p.threads| && p.threads[p.createMu.value].Appending?)
    && forall t | 0 <= t < |p.threads| :: PlaceOk(p, p.threads[t])
  }

  lemma {:induction false} FilterAll(s: seq<nat>, keep: set<nat>)
    requires forall x | x in s :: x in keep
    ensures Filter(s, keep) == s
  {
    if s == [] {
    } else {
      assert s == s[..|s| - 1] + [s[|s| - 1]];
      FilterAll(s[..|s| - 1], keep);
    }
  }

  lemma {:induction false} FilterNone(s: seq<nat>, keep: set<nat>)
    requires forall x | x in s :: x !in keep
    ensures Filter(s, keep) == []
  {
    if s == [] {
    } else {
      assert s == s[..|s| - 1] + [s[|s| - 1]];
      FilterNone(s[..|s| - 1], keep);
    }
  }

  lemma NothingPruned(p: Pool, s: Step)
    requires OneFlight(p) && Well(p, s)
    ensures Kept(p, s) == p.list && Dropped(p, s) == []
  {
    FilterAll(p.list, Pruned(p, s));
    FilterNone(p.list, Elements(p.list) - Pruned(p, s));
  }

  lemma OnlyIndex(strategy: Strategy, uses: nat, roundRobin: nat, random: nat)
    ensures PickIndex(strategy, [uses], [true], roundRobin, random) == Some(0)
  {
    assert FirstTrue([true]).Some? by {
      assert [true][0];
    }
  }

  lemma HitOnly(c: Config, p: Pool, s: Step, kept: seq<nat>)
    requires |kept| == 1 && kept[0] in s.scan && kept[0] in s.confirm && kept[0] !in p.closed
    ensures HitAmong(c, p, s, kept) == Some(kept[0])
  {
    assert Reads(p, kept, s.scan) == [true];
    assert Uses(p, kept) == [Uses(p, kept)[0]];
    OnlyIndex(c.strategy, Uses(p, kept)[0], p.roundRobin, s.random);
  }

  /** Every strategy picks the only connection there is. */
  lemma OnlyChoice(c: Config, p: Pool, s: Step)
    requires OneFlight(p) && Well(p, s)
    ensures Kept(p, s) == p.list && Dropped(p, s) == []
    ensures Hit(c, p, s) == if p.list == [] then None else Some(0)
  {
    NothingPruned(p, s);
    if p.list != [] {
      assert p.list[0] in p.list;
      HitOnly(c, p, s, p.list);
    }
  }

  lemma SelectKeepsFlight(c: Config, p: Pool, s: Step)
    requires Enabled(p, s) && MuExact(p) && OneFlight(p) && Well(p, s)
    requires p.threads[s.thread].Calling? || p.threads[s.thread].Rechecking?
    ensures OneFlight(Take(c, p, s))
  {
    OnlyChoice(c, p, s);
    assert p.threads[s.thread].Rechecking? ==> p.createMu == Some(s.thread);
    SelectedKeepsFlight(p, Take(c, p, s), s.thread);
  }

  /** The selecting thread alone moves, to a place that is fine. */
  lemma SelectedKeepsFlight(p: Pool, p': Pool, t: nat)
    requires OneFlight(p) && t < |p.threads| == |p'.threads| && !p.threads[t].Appending?
    requires p' == p.(threads := p.threads[t := p'.threads[t]], uses := p'.uses, roundRobin := p'.roundRobin)
    requires PlaceOk(p, p'.threads[t])
    ensures OneFlight(p')
  {
    forall u | 0 <= u < |p.threads| ensures PlaceOk(p', p'.threads[u]) {
      assert PlaceOk(p, p.threads[u]);
    }
  }

  lemma CreateKeepsFlight(c: Config, p: Pool, s: Step)
    requires Enabled(p, s) && MuExact(p) && OneFlight(p)
    requires p.threads[s.thread].Creating? || p.threads[s.thread].Appending?
    ensures OneFlight(Take(c, p, s))
  {
    var p' := Take(c, p, s);
    assert HoldsCreateMu(p.threads[s.thread]);
    forall t | 0 <= t < |p.threads| && t != s.thread ensures PlaceOk(p', p'.threads[t]) {
      assert !HoldsCreateMu(p.threads[t]);
      assert PlaceOk(p, p.threads[t]);
    }
  }

  lemma OtherStepsKeepFlight(c: Config, p: Pool, s: Step)
    requires Enabled(p, s) && MuExact(p) && OneFlight(p)
    requires var place := p.threads[s.thread];
      place.Waiting? || place.Preparing? || place.Unlocking? || place.Closing?
    ensures OneFlight(Take(c, p, s))
  {
    var p' := Take(c, p, s);
    assert PlaceOk(p, p.threads[s.thread]);
    assert p'.list == p.list && p'.next == p.next;
    forall t | 0 <= t < |p.threads| ensures PlaceOk(p', p'.threads[t]) {
      assert PlaceOk(p, p.threads[t]);
    }
  }

  lemma StepKeepsFlight(c: Config, p: Pool, s: Step)
    requires Enabled(p, s) && MuExact(p) && OneFlight(p) && Well(p, s)
    ensures OneFlight(Take(c, p, s))
  {
    assert PlaceOk(p, p.threads[s.thread]);
    match p.threads[s.thread]
    case Calling => SelectKeepsFlight(c, p, s);
    case Rechecking => SelectKeepsFlight(c, p, s);
    case Creating => CreateKeepsFlight(c, p, s);
    case Appending(_) => CreateKeepsFlight(c, p, s);
    case _ => OtherStepsKeepFlight(c, p, s);
  }

  lemma CalmStep(c: Config, pools: seq<Pool>, steps: seq<Step>, i: nat)
    requires Run(c, pools, steps) && Calm(pools, steps) && 0 < i < |pools|
    requires MuExact(pools[i - 1]) && OneFlight(pools[i - 1])
    ensures OneFlight(pools[i])
  {
    StepKeepsFlight(c, pools[i - 1], steps[i - 1]);
  }

  lemma {:induction false} OneFlightAlways(c: Config, pools: seq<Pool>, steps: seq<Step>, i: nat)
    requires Run(c, pools, steps) && Calm(pools, steps) && i < |pools|
    ensures OneFlight(pools[i])
  {
    if i == 0 {
    } else {
      OneFlightAlways(c, pools, steps, i - 1);
      InvAlways(c, pools, steps, i - 1);
      CalmStep(c, pools, steps, i);
    }
  }

  /** Any number of concurrent callers, any interleaving, any strategy: at most one createFunc
      succeeds, and every caller that gets a connection gets that one. */
  lemma SingleFlight(c: Config, pools: seq<Pool>, steps: seq<Step>, i: nat)
    requires Run(c, pools, steps) && Calm(pools, steps) && i < |pools|
    ensures pools[i].next <= 1
    ensures forall t | 0 <= t < |pools[i].threads| && pools[i].threads[t].Done? :: ResultOk(pools[i], pools[i].threads[t].result)
  {
    OneFlightAlways(c, pools, steps, i);
    forall t | 0 <= t < |pools[i].threads| && pools[i].threads[t].Done?
      ensures ResultOk(pools[i], pools[i].threads[t].result)
    {
      assert PlaceOk(pools[i], pools[i].threads[t]);
    }
  }
}
