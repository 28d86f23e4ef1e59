/** What the idle sweep can do to one service pool, for every configuration: runs that leave a
    connection open and forgotten, and runs that exceed the capacity as far as possible. */
module SweepLimits {
  import opened Basics
  import opened Errors
  import opened ServicePool
  import opened ServicePoolRuns
  import opened SweepRuns

  /** Some run ends in `s`. */
  ghost predicate Reachable(c: Config, s: State) {
    exists states, moves :: SweepRun(c, states, moves) && states[|moves|] == s
  }

  function Start(callers: nat): State {
    State(Pool([], map[], 0, None, seq(callers, i => Calling), 0, {}, {}), Resting, true, 0)
  }

  lemma StartIsReachable(c: Config, callers: nat)
    ensures Reachable(c, Start(callers))
  {
    assert Run(c, [Start(callers).pool], []);
    assert SweepRun(c, [Start(callers)], []);
  }

  /** A run goes on with any possible move. */
  lemma ReachesNext(c: Config, s: State, m: Move)
    requires Reachable(c, s) && Possible(s, m)
    ensures Reachable(c, Make(c, s, m))
  {
    var states, moves :| SweepRun(c, states, moves) && states[|moves|] == s;
    var states', moves' := states + [Make(c, s, m)], moves + [m];
    forall i | 0 <= i < |moves'|
      ensures Possible(states'[i], moves'[i]) && states'[i + 1] == Make(c, states'[i], moves'[i])
    {
      assert i < |moves| ==> moves'[i] == moves[i] && states'[i] == states[i] && states'[i + 1] == states[i + 1];
    }
    assert SweepRun(c, states', moves');
  }

  lemma ReachableInv(c: Config, s: State)
    requires Reachable(c, s)
    ensures SweepInv(s) && Roomy(c, s)
  {
    var states, moves :| SweepRun(c, states, moves) && states[|moves|] == s;
    SweepInvAlways(c, states, moves, |moves|);
    SweptCapacity(c, states, moves, |moves|);
  }

  // ----- One caller's way through a call -------------------------------------------------------

  /** The next step of caller `i`: it reads all but closed connections as healthy when pruning,
      then finds its choice unhealthy, so that it creates one, which succeeds. */
  function Walk(s: State, i: nat): Move {
    Thread(Step(i, Elements(s.pool.list), {}, {}, 0, true, {}))
  }

  /** From `a` to `b` only caller `i` has moved, without appending, and it is at `place`. */
  ghost predicate Came(c: Config, a: State, b: State, i: nat, place: Place) {
    && Reachable(c, b) && i < |a.pool.threads| && b.pool.threads == a.pool.threads[i := place]
    && b.sweeper == a.sweeper && b.mapped == a.mapped && b.writeBacks == a.writeBacks
    && b.pool.appended == a.pool.appended
  }

  /** As long as nothing has been closed, the list is what it was. */
  predicate Untouched(a: State, b: State) {
    a.pool.closed == {} ==> b.pool.closed == {} && b.pool.list == a.pool.list
  }

  lemma SinceSame(s: State)
    ensures Noting(s.sweeper, s.pool.appended - s.pool.appended) == s.sweeper
  {
    assert s.pool.appended - s.pool.appended == {};
    if s.sweeper.Swept? {
      assert s.sweeper.since + {} == s.sweeper.since;
    }
  }

  /** One of the steps that change nothing but the caller's place and createMu. */
  lemma Pass(c: Config, a: State, i: nat) returns (b: State)
    requires Reachable(c, a) && i < |a.pool.threads|
    requires (a.pool.threads[i].Waiting? && a.pool.createMu.None?)
             || (a.pool.threads[i].Closing? && a.pool.threads[i].pending == [])
    ensures Came(c, a, b, i, if a.pool.threads[i].Waiting? then Rechecking else AfterClosing(a.pool.threads[i].after))
    ensures b.pool.list == a.pool.list && b.pool.closed == a.pool.closed
    ensures b.pool.createMu == if a.pool.threads[i].Waiting? then Some(i) else a.pool.createMu
  {
    SinceSame(a);
    ReachesNext(c, a, Walk(a, i));
    b := Make(c, a, Walk(a, i));
  }

  lemma NoHit(c: Config, p: Pool, s: Step)
    requires s.confirm == {}
    ensures Hit(c, p, s) == None
  {
  }

  lemma NothingDropped(p: Pool, s: Step)
    requires p.closed == {} && s.prune == Elements(p.list)
    ensures Kept(p, s) == p.list && Dropped(p, s) == []
  {
    FilterAll(p.list, Pruned(p, s));
    FilterNone(p.list, Elements(p.list) - Pruned(p, s));
  }

  lemma Select(c: Config, a: State, i: nat) returns (b: State, pending: seq<nat>)
    requires Reachable(c, a) && i < |a.pool.threads| && (a.pool.threads[i].Calling? || a.pool.threads[i].Rechecking?)
    ensures Came(c, a, b, i, Closing(pending, if a.pool.threads[i].Calling? then ToWait else ToPrepare))
    ensures a.pool.closed == {} ==> pending == []
    ensures Untouched(a, b) && b.pool.createMu == a.pool.createMu
  {
    SinceSame(a);
    var m := Walk(a, i);
    pending := Dropped(a.pool, m.step);
    NoHit(c, a.pool, m.step);
    if a.pool.closed == {} {
      NothingDropped(a.pool, m.step);
    }
    ReachesNext(c, a, m);
    b := Make(c, a, m);
  }

  /** The caller closes all it has pending and moves on. */
  lemma {:induction false} Drain(c: Config, a: State, i: nat) returns (b: State)
    requires Reachable(c, a) && i < |a.pool.threads| && a.pool.threads[i].Closing?
    ensures Came(c, a, b, i, AfterClosing(a.pool.threads[i].after))
    ensures b.pool.list == a.pool.list && b.pool.createMu == a.pool.createMu
    ensures a.pool.threads[i].pending == [] ==> b.pool.closed == a.pool.closed
    decreases |a.pool.threads[i].pending|
  {
    if a.pool.threads[i].pending == [] {
      b := Pass(c, a, i);
    } else {
      SinceSame(a);
      ReachesNext(c, a, Walk(a, i));
      var next := Make(c, a, Walk(a, i));
      b := Drain(c, next, i);
    }
  }

  lemma CameOn(c: Config, a: State, b: State, d: State, i: nat, place: Place, place': Place)
    requires Came(c, a, b, i, place) && Came(c, b, d, i, place')
    ensures Came(c, a, d, i, place')
  {
  }

  /** From the call to just before making room, under createMu. */
  lemma Arrive(c: Config, a: State, i: nat) returns (b: State)
    requires Reachable(c, a) && i < |a.pool.threads| && a.pool.threads[i].Calling? && a.pool.createMu.None?
    ensures Came(c, a, b, i, Preparing) && Untouched(a, b) && b.pool.createMu == Some(i)
  {
    var s1, s2, s3, s4, s5, pending;
    s1, pending := Select(c, a, i);
    s2 := Drain(c, s1, i);
    CameOn(c, a, s1, s2, i, Closing(pending, ToWait), Waiting);
    s3 := Pass(c, s2, i);
    CameOn(c, a, s2, s3, i, Waiting, Rechecking);
    s4, pending := Select(c, s3, i);
    CameOn(c, a, s3, s4, i, Rechecking, Closing(pending, ToPrepare));
    s5 := Drain(c, s4, i);
    CameOn(c, a, s4, s5, i, Closing(pending, ToPrepare), Preparing);
    b := s5;
  }

  /** Makes room: in a list below its limit nothing changes, otherwise one is pending. */
  lemma MakeRoom(c: Config, a: State, i: nat) returns (b: State)
    requires Reachable(c, a) && i < |a.pool.threads| && a.pool.threads[i].Preparing?
    ensures Reachable(c, b) && |b.pool.threads| == |a.pool.threads|
    ensures b.pool.threads == a.pool.threads[i := b.pool.threads[i]]
    ensures b == a.(pool := b.pool) && b.pool.createMu == a.pool.createMu && b.pool.appended == a.pool.appended
    ensures b.pool.closed == a.pool.closed
    ensures |a.pool.list| < Limit(c) ==> b.pool.threads[i] == Creating && b.pool.list == a.pool.list
    ensures |a.pool.list| >= Limit(c) ==> b.pool.threads[i].Closing? && b.pool.threads[i].after == ToCreate
  {
    SinceSame(a);
    ReachesNext(c, a, Walk(a, i));
    b := Make(c, a, Walk(a, i));
  }

  /** Creates a connection. */
  lemma Create(c: Config, a: State, i: nat) returns (b: State)
    requires Reachable(c, a) && i < |a.pool.threads| && a.pool.threads[i].Creating?
    ensures Reachable(c, b)
    ensures b == a.(pool := a.pool.(threads := a.pool.threads[i := Appending(a.pool.next)], next := a.pool.next + 1))
  {
    SinceSame(a);
    ReachesNext(c, a, Walk(a, i));
    b := Make(c, a, Walk(a, i));
  }

  /** Appends it. */
  lemma Append(c: Config, a: State, i: nat, x: nat) returns (b: State)
    requires Reachable(c, a) && i < |a.pool.threads| && a.pool.threads[i] == Appending(x)
    ensures Reachable(c, b) && b.pool.threads == a.pool.threads[i := Unlocking(Some(x))]
    ensures b.pool.list == a.pool.list + [x] && b.pool.appended == a.pool.appended + {x}
    ensures b.pool.closed == a.pool.closed && b.pool.createMu == a.pool.createMu
    ensures b == a.(pool := b.pool, sweeper := b.sweeper) && b.sweeper == Noting(a.sweeper, {x})
  {
    ReachableInv(c, a);
    ReachesNext(c, a, Walk(a, i));
    b := Make(c, a, Walk(a, i));
    assert a.pool.appended + {x} - a.pool.appended == {x};
  }

  /** Creates, appends and leaves. */
  lemma Leave(c: Config, a: State, i: nat) returns (b: State)
    requires Reachable(c, a) && i < |a.pool.threads| && a.pool.threads[i].Creating? && a.sweeper.Resting?
    ensures Reachable(c, b) && b.pool.threads == a.pool.threads[i := Done(Some(a.pool.next))]
    ensures b == a.(pool := b.pool) && b.pool.createMu == None && b.pool.closed == a.pool.closed
    ensures b.pool.list == a.pool.list + [a.pool.next]
  {
    var s1 := Create(c, a, i);
    var s2 := Append(c, s1, i, a.pool.next);
    ReachesNext(c, s2, Walk(s2, i));
    b := Make(c, s2, Walk(s2, i));
  }

  // ----- Capacity ---------------------------------------------------------------------------------

  /** At rest, with the callers from `i` on still to come. */
  ghost predicate Quiet(c: Config, s: State, i: nat, size: nat, writeBacks: nat) {
    && Reachable(c, s) && s.sweeper.Resting? && s.mapped && s.pool.createMu.None?
    && |s.pool.list| == size && s.writeBacks == writeBacks
    && i <= |s.pool.threads| && forall t | i <= t < |s.pool.threads| :: s.pool.threads[t].Calling?
  }

  /** Below the limit the next caller adds a connection. */
  lemma Fill(c: Config, a: State, i: nat, size: nat) returns (b: State)
    requires Quiet(c, a, i, size, 0) && i < |a.pool.threads| && a.pool.closed == {} && size < Limit(c)
    ensures Quiet(c, b, i + 1, size + 1, 0) && b.pool.closed == {} && |b.pool.threads| == |a.pool.threads|
  {
    var s1 := Arrive(c, a, i);
    var s2 := MakeRoom(c, s1, i);
    b := Leave(c, s2, i);
  }

  /** A sweep that finds nothing idle, up to its write-back. */
  lemma SweepStarts(c: Config, a: State) returns (b: State)
    requires Reachable(c, a) && a.sweeper.Resting? && a.mapped
    ensures Reachable(c, b) && b == a.(sweeper := Swept(a.pool.list, [], false, {}))
  {
    FilterAll(a.pool.list, Elements(a.pool.list) - {});
    FilterNone(a.pool.list, {});
    ReachesNext(c, a, Collect({}, false));
    b := Make(c, a, Collect({}, false));
  }

  /** A caller makes room during a sweep, whose write-back takes it away again. */
  lemma RoomIsTaken(c: Config, a: State, i: nat) returns (b: State)
    requires Reachable(c, a) && a.sweeper.Resting? && a.mapped && a.pool.createMu.None?
    requires i < |a.pool.threads| && a.pool.threads[i].Calling?
    ensures Reachable(c, b) && b.sweeper.Resting? && b.mapped && b.writeBacks == a.writeBacks + 1
    ensures b.pool.list == a.pool.list && b.pool.createMu == Some(i) && |b.pool.threads| == |a.pool.threads|
    ensures b.pool.threads == a.pool.threads[i := b.pool.threads[i]]
    ensures b.pool.threads[i] == Creating || (b.pool.threads[i].Closing? && b.pool.threads[i].after == ToCreate)
  {
    var s1 := SweepStarts(c, a);
    var s2 := Arrive(c, s1, i);
    var s3 := MakeRoom(c, s2, i);
    ReachesNext(c, s3, WriteBack);
    b := Make(c, s3, WriteBack);
  }

  /** Then it appends: one connection more, for one write-back. */
  lemma Overfill(c: Config, a: State, i: nat, size: nat, writeBacks: nat) returns (b: State)
    requires Quiet(c, a, i, size, writeBacks) && i < |a.pool.threads|
    ensures Quiet(c, b, i + 1, size + 1, writeBacks + 1) && |b.pool.threads| == |a.pool.threads|
  {
    var s1 := RoomIsTaken(c, a, i);
    var s2 := s1;
    if s1.pool.threads[i].Closing? {
      s2 := Drain(c, s1, i);
    }
    b := Leave(c, s2, i);
  }

  lemma {:induction false} Filled(c: Config, callers: nat, size: nat) returns (s: State)
    requires size <= Limit(c) && size <= callers
    ensures Quiet(c, s, size, size, 0) && s.pool.closed == {} && |s.pool.threads| == callers
  {
    if size == 0 {
      StartIsReachable(c, callers);
      s := Start(callers);
    } else {
      s := Filled(c, callers, size - 1);
      s := Fill(c, s, size - 1, size - 1);
    }
  }

  lemma {:induction false} Overfilled(c: Config, callers: nat, writeBacks: nat) returns (s: State)
    requires Limit(c) + writeBacks <= callers
    ensures var size: nat := Limit(c) + writeBacks;
      Quiet(c, s, size, size, writeBacks) && |s.pool.threads| == callers
  {
    if writeBacks == 0 {
      s := Filled(c, callers, Limit(c));
    } else {
      s := Overfilled(c, callers, writeBacks - 1);
      s := Overfill(c, s, Limit(c) + writeBacks - 1, Limit(c) + writeBacks - 1, writeBacks - 1);
    }
  }

  /** With so many write-backs a list can get as long as that and no longer. */
  lemma SweptCapacityIsExact(c: Config, writeBacks: nat, size: nat)
    ensures (exists s :: Reachable(c, s) && s.writeBacks == writeBacks && |s.pool.list| >= size)
       <==> size <= Max(1, c.maxConns) + writeBacks
  {
    forall s | Reachable(c, s) ensures |s.pool.list| <= Max(1, c.maxConns) + s.writeBacks {
      ReachableInv(c, s);
    }
    var s := Overfilled(c, Limit(c) + writeBacks, writeBacks);
    assert Reachable(c, s) && |s.pool.list| == Limit(c) + writeBacks;
  }

  // ----- Connections left open and forgotten -----------------------------------------------------

  /** A sweep that finds the empty pool idle, as a whole or not. */
  lemma SweepOfNothing(c: Config, whole: bool) returns (b: State)
    ensures Reachable(c, b) && b == Start(1).(sweeper := Swept([], [], whole, {}))
  {
    StartIsReachable(c, 1);
    ReachesNext(c, Start(1), Collect({}, whole));
    b := Make(c, Start(1), Collect({}, whole));
  }

  /** Meanwhile a caller appends. */
  lemma AppendDuringSweep(c: Config, whole: bool) returns (b: State, x: nat)
    ensures Reachable(c, b) && b.mapped && b.writeBacks == 0 && b.sweeper.Swept?
    ensures b.sweeper.keep == [] && b.sweeper.left == [] && b.sweeper.whole == whole
    ensures |b.pool.threads| == 1 && b.pool.threads[0].Unlocking?
    ensures b.pool.list == [x] && b.pool.appended == {x} && b.pool.closed == {}
  {
    var s1 := SweepOfNothing(c, whole);
    var s2 := Arrive(c, s1, 0);
    var s3 := MakeRoom(c, s2, 0);
    x := s3.pool.next;
    var s4 := Create(c, s3, 0);
    b := Append(c, s4, 0, x);
  }

  lemma NothingPendingHere(threads: seq<Place>, x: nat)
    requires |threads| == 1 && !threads[0].Closing?
    ensures AllPending(threads, x) == 0
  {
    assert threads[..0] == [];
  }

  /** It does happen that a write-back drops an open connection: from then on it is in no place. */
  lemma WriteBackCanForget(c: Config) returns (s: State, x: nat)
    ensures Reachable(c, s) && !NoneForgotten(s) && Lost(s, x)
  {
    var b;
    b, x := AppendDuringSweep(c, false);
    ReachesNext(c, b, WriteBack);
    s := Make(c, b, WriteBack);
    NothingPendingHere(s.pool.threads, x);
    assert Count(s.pool, x) == 0 && !Tracked(s, x);
  }

  /** And that the sweep drops the service that lists one: no write-back is needed, and once
      the caller has gone nobody will close it. */
  lemma DropCanForget(c: Config) returns (s: State, x: nat)
    ensures Reachable(c, s) && s.writeBacks == 0 && !NoneForgotten(s) && Orphaned(s, x)
  {
    var b;
    b, x := AppendDuringSweep(c, true);
    ReachesNext(c, b, Drop);
    var s1 := Make(c, b, Drop);
    ReachesNext(c, s1, Walk(s1, 0));
    s := Make(c, s1, Walk(s1, 0));
    NothingPendingHere(s.pool.threads, x);
    assert !CloserComes(s.pool) && !Tracked(s, x);
  }
}
