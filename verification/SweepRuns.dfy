/** The idle sweep as the code runs it, over one service pool: it collects under the service
    mutex, closes what is idle without it, and then writes back the list it collected, while
    callers and closers go on in between. */
module SweepRuns {
  import opened Basics
  import opened Errors
  import opened ServicePool
  import opened ServicePoolRuns

  /** Between its collection and its last phase the sweep holds the list to write back and the
      idle connections still to close. `whole`: the service itself is idle, so all its
      connections are closed and it is dropped. `since` records what was appended meanwhile. */
  datatype Sweeper = Resting | Swept(keep: seq<nat>, left: seq<nat>, whole: bool, since: set<nat>)

  /** `mapped`: the pool is in the map, where later calls, closers and sweeps find it. Once out
      of it, it is never put back. */
  datatype State = State(pool: Pool, sweeper: Sweeper, mapped: bool, writeBacks: nat)

  /** A thread's step; the sweep's phases, which end with a write-back, with dropping the idle
      service, or with nothing if the service has gone meanwhile; or a closer taking the pool
      out of the map: CloseConnection while it still holds createMu, CloseAll later. */
  datatype Move =
    | Thread(step: Step)
    | Collect(idle: set<nat>, whole: bool) | CloseIdle | WriteBack | Drop | Forget
    | Remove(closer: nat)

  predicate Possible(s: State, m: Move) {
    match m
    case Thread(step) => Enabled(s.pool, step) && !s.pool.threads[step.thread].Sweeping?
    case Collect(_, _) => s.sweeper.Resting? && s.mapped
    case CloseIdle => s.sweeper.Swept? && s.sweeper.left != []
    case WriteBack => s.sweeper.Swept? && s.sweeper.left == [] && !s.sweeper.whole && s.mapped
    case Drop => s.sweeper.Swept? && s.sweeper.left == [] && s.sweeper.whole
    case Forget => s.sweeper.Swept? && s.sweeper.left == [] && !s.sweeper.whole && !s.mapped
    case Remove(t) => s.mapped && t < |s.pool.threads| && (s.pool.threads[t].ClosedAll? || s.pool.threads[t] == Done(None))
  }

  function Noting(s: Sweeper, added: set<nat>): Sweeper {
    if s.Resting? then s else s.(since := s.since + added)
  }

  function Collected(p: Pool, idle: set<nat>, whole: bool): Sweeper {
    if whole then Swept([], p.list, true, {})
    else Swept(Filter(p.list, Elements(p.list) - idle), Filter(p.list, idle), false, {})
  }

  function Make(c: Config, s: State, m: Move): State
    requires Possible(s, m)
  {
    match m
    case Thread(step) =>
      var p' := Take(c, s.pool, step);
      s.(pool := p', sweeper := Noting(s.sweeper, p'.appended - s.pool.appended))
    case Collect(idle, whole) => s.(sweeper := Collected(s.pool, idle, whole))
    case CloseIdle =>
      s.(pool := s.pool.(closed := s.pool.closed + {s.sweeper.left[0]}), sweeper := s.sweeper.(left := s.sweeper.left[1..]))
    case WriteBack => s.(pool := s.pool.(list := s.sweeper.keep), sweeper := Resting, writeBacks := s.writeBacks + 1)
    case Drop => s.(mapped := false, sweeper := Resting)
    case Forget => s.(sweeper := Resting)
    case Remove(_) => s.(mapped := false)
  }

  /** A run from an empty pool, with any mix of callers and closers, and sweeps one at a time. */
  ghost predicate SweepRun(c: Config, states: seq<State>, moves: seq<Move>) {
    && |states| == |moves| + 1 && states[0] == State(states[0].pool, Resting, true, 0)
    && Run(c, [states[0].pool], [])
    && forall i | 0 <= i < |moves| :: Possible(states[i], moves[i]) && states[i + 1] == Make(c, states[i], moves[i])
  }

  /** A collection takes all of a service idle as a whole, and otherwise separates exactly the idle
      connections from the others, which keep their order. */
  lemma CollectionMeans(p: Pool, idle: set<nat>, whole: bool)
    ensures var s := Collected(p, idle, whole);
      && s.Swept? && s.since == {}
      && (whole ==> s.left == p.list && s.keep == [])
      && (!whole ==>
            && KeepsOrder(s.keep, p.list) && (forall x :: x in s.keep <==> x in p.list && x !in idle)
            && forall x :: x in s.left <==> x in p.list && x in idle)
  {
    FilterKeeps(p.list, idle);
    FilterKeeps(p.list, Elements(p.list) - idle);
    FilterKeepsOrder(p.list, Elements(p.list) - idle);
  }

  // ----- What every run keeps -----------------------------------------------------------------

  /** What the sweep holds was appended before its collection and is in some place. What has been
      listed since is its own, closed, or new. A new connection is still in exactly one place. */
  ghost predicate SweepOk(s: State) {
    s.sweeper.Swept? ==>
      && (s.sweeper.whole ==> s.sweeper.keep == [])
      && (forall x | x in s.sweeper.keep || x in s.sweeper.left ::
            x in s.pool.appended && x !in s.sweeper.since && Count(s.pool, x) > 0)
      && (forall x | x in s.sweeper.since :: x in s.pool.appended && CountedOnce(s.pool, x))
      && (forall x | x in s.pool.list ::
            x in s.sweeper.keep || x in s.sweeper.left || x in s.pool.closed || x in s.sweeper.since)
  }

  /** Connection `x` is closed or some thread is about to close it. */
  predicate Leaving(p: Pool, x: nat) { x in p.closed || AllPending(p.threads, x) > 0 }

  /** While a closer that took the list holds createMu, all that a write-back may have listed, or
      may list, is on its way out. */
  ghost predicate EmptiedOk(s: State) {
    forall t | 0 <= t < |s.pool.threads| && HasEmptied(s.pool.threads[t]) ::
      && (forall x | x in s.pool.list :: Leaving(s.pool, x))
      && (s.sweeper.Swept? ==> forall x | x in s.sweeper.keep :: Leaving(s.pool, x))
  }

  /** Whatever is in some place has been appended. */
  ghost predicate Known(p: Pool) {
    forall x: nat :: Count(p, x) > 0 ==> x in p.appended
  }

  ghost predicate SweepInv(s: State) {
    MuExact(s.pool) && Fresh(s.pool) && Known(s.pool) && SweepOk(s) && EmptiedOk(s)
  }

  /** A step lists only what was listed and what it appends. */
  lemma StepLists(c: Config, p: Pool, s: Step)
    requires Enabled(p, s) && Fresh(p)
    ensures var p' := Take(c, p, s);
      && p.appended <= p'.appended && p.closed <= p'.closed
      && forall x | x in p'.list :: x in p.list || x in p'.appended - p.appended
  {
  }

  /** The counts of a connection no thread is closing. */
  lemma StepCounts(c: Config, p: Pool, s: Step, x: nat)
    requires Enabled(p, s) && Fresh(p)
    requires p.threads[s.thread].Closing? ==> x !in p.threads[s.thread].pending
    ensures Count(Take(c, p, s), x) + One(x in p.appended) == Count(p, x) + One(x in Take(c, p, s).appended)
  {
    match p.threads[s.thread] {
      case Calling => SelectTrades(c, p, s, x);
      case Rechecking => SelectTrades(c, p, s, x);
      case Sweeping => SweepTrades(c, p, s, x);
      case Preparing => EvictTrades(c, p, s, x);
      case Appending(_) => AppendTrades(c, p, s, x);
      case Closing(_, _) => OtherCloseTrades(c, p, s, x);
      case _ =>
    }
    PendingMoved(p.threads, s.thread, Take(c, p, s).threads[s.thread], x);
  }

  lemma OtherCloseTrades(c: Config, p: Pool, s: Step, x: nat)
    requires Enabled(p, s) && p.threads[s.thread].Closing? && x !in p.threads[s.thread].pending
    ensures Trades(p, Take(c, p, s), s.thread, x)
  {
    var pending := p.threads[s.thread].pending;
    OccursIff(pending, x);
    if pending != [] {
      OccursIff(pending[1..], x);
    }
  }

  /** A step closes a connection rather than losing it. */
  lemma StepKeepsPlaced(c: Config, p: Pool, s: Step, x: nat)
    requires Enabled(p, s) && Fresh(p) && (x in p.appended ==> Count(p, x) > 0)
    ensures x in Take(c, p, s).appended ==> Count(Take(c, p, s), x) > 0
  {
    var place := p.threads[s.thread];
    if place.Closing? && x in place.pending {
      if x != place.pending[0] {
        assert place.pending == [place.pending[0]] + place.pending[1..];
        OccursIff(place.pending[1..], x);
        PendingMoved(Take(c, p, s).threads, s.thread, Calling, x);
      }
    } else {
      StepCounts(c, p, s, x);
    }
  }

  lemma StepKeepsLeaving(c: Config, p: Pool, s: Step, x: nat)
    requires Enabled(p, s) && Leaving(p, x)
    ensures Leaving(Take(c, p, s), x)
  {
    var place, p' := p.threads[s.thread], Take(c, p, s);
    PendingMoved(p.threads, s.thread, p'.threads[s.thread], x);
    if place.Closing? && place.pending != [] {
      assert place.pending == [place.pending[0]] + place.pending[1..];
      OccursAppend([place.pending[0]], place.pending[1..], x);
      OccursOnce(place.pending[0], x);
    }
  }

  /** What a closer takes is leaving, and so is all that was in some other place. */
  lemma TakenIsLeaving(c: Config, p: Pool, s: Step, x: nat)
    requires Enabled(p, s) && p.threads[s.thread].Emptying? && Count(p, x) > 0
    ensures Leaving(Take(c, p, s), x)
  {
    PendingMoved(p.threads, s.thread, Take(c, p, s).threads[s.thread], x);
  }

  lemma StepKeepsKnown(c: Config, p: Pool, s: Step)
    requires Enabled(p, s) && Fresh(p) && Known(p)
    ensures Known(Take(c, p, s))
  {
    forall x: nat | Count(Take(c, p, s), x) > 0 ensures x in Take(c, p, s).appended {
      if p.threads[s.thread].Closing? && x in p.threads[s.thread].pending {
        OccursIff(p.threads[s.thread].pending, x);
        PendingMoved(p.threads, s.thread, Calling, x);
        assert Count(p, x) > 0;
      } else {
        StepCounts(c, p, s, x);
      }
    }
  }

  lemma ListIsKnown(p: Pool)
    requires Known(p)
    ensures forall x | x in p.list :: x in p.appended
  {
    forall x | x in p.list ensures x in p.appended {
      OccursIff(p.list, x);
      assert Count(p, x) > 0;
    }
  }

  /** A newly appended connection is in exactly one place. */
  lemma NewIsCountedOnce(c: Config, p: Pool, s: Step, x: nat)
    requires Enabled(p, s) && Fresh(p) && Known(p) && x !in p.appended && x in Take(c, p, s).appended
    ensures CountedOnce(Take(c, p, s), x)
  {
    assert Count(p, x) == 0;
    StepCounts(c, p, s, x);
  }

  lemma ThreadKeepsSweepOk(c: Config, s: State, step: Step)
    requires SweepInv(s) && Possible(s, Thread(step))
    ensures SweepOk(Make(c, s, Thread(step)))
  {
    var s' := Make(c, s, Thread(step));
    StepLists(c, s.pool, step);
    if s.sweeper.Swept? {
      forall x | x in s.sweeper.keep || x in s.sweeper.left ensures Count(s'.pool, x) > 0 {
        StepKeepsPlaced(c, s.pool, step, x);
      }
      forall x | x in s'.sweeper.since ensures x in s'.pool.appended && CountedOnce(s'.pool, x) {
        if x in s.sweeper.since {
          StepConserves(c, s.pool, step, x);
        } else {
          NewIsCountedOnce(c, s.pool, step, x);
        }
      }
    }
  }

  /** Thread `t` has emptied the list before or by this step: all is leaving after it. */
  lemma EmptiedAfter(c: Config, s: State, step: Step, t: nat, x: nat)
    requires SweepInv(s) && Possible(s, Thread(step)) && t < |s.pool.threads|
    requires HasEmptied(Take(c, s.pool, step).threads[t])
    requires x in Take(c, s.pool, step).list || (s.sweeper.Swept? && x in s.sweeper.keep)
    ensures Leaving(Take(c, s.pool, step), x)
  {
    var p, p' := s.pool, Take(c, s.pool, step);
    ClaimsArise(c, p, step);
    StepKeepsMu(c, p, step);
    ClaimsHoldMu(p'.threads[t]);
    if HasEmptied(p.threads[t]) {
      ClaimsHoldMu(p.threads[t]);
      StepLists(c, p, step);
      var place := p.threads[step.thread];
      assert HoldsCreateMu(place) ==> step.thread == t;
      assert !place.Appending?;
      StepKeepsLeaving(c, p, step, x);
    } else {
      assert p.threads[t].Emptying?;
      TakenIsLeaving(c, p, step, x);
    }
  }

  lemma ThreadKeepsInv(c: Config, s: State, step: Step)
    requires SweepInv(s) && Possible(s, Thread(step))
    ensures SweepInv(Make(c, s, Thread(step)))
  {
    var s' := Make(c, s, Thread(step));
    StepKeepsMu(c, s.pool, step);
    StepKeepsFresh(c, s.pool, step);
    StepKeepsKnown(c, s.pool, step);
    ThreadKeepsSweepOk(c, s, step);
    forall t, x | 0 <= t < |s'.pool.threads| && HasEmptied(s'.pool.threads[t])
                  && (x in s'.pool.list || (s'.sweeper.Swept? && x in s'.sweeper.keep))
      ensures Leaving(s'.pool, x)
    {
      EmptiedAfter(c, s, step, t, x);
    }
  }

  lemma CollectKeepsInv(c: Config, s: State, idle: set<nat>, whole: bool)
    requires SweepInv(s) && Possible(s, Collect(idle, whole))
    ensures SweepInv(Make(c, s, Collect(idle, whole)))
  {
    ListIsKnown(s.pool);
    forall x | x in s.pool.list ensures Count(s.pool, x) > 0 {
      OccursIff(s.pool.list, x);
    }
    FilterKeeps(s.pool.list, idle);
    FilterKeeps(s.pool.list, Elements(s.pool.list) - idle);
  }

  lemma CloseIdleKeepsInv(c: Config, s: State)
    requires SweepInv(s) && Possible(s, CloseIdle)
    ensures SweepInv(Make(c, s, CloseIdle))
  {
    var left, s' := s.sweeper.left, Make(c, s, CloseIdle);
    assert left == [left[0]] + left[1..];
    forall x: nat | Count(s'.pool, x) > 0 ensures x in s'.pool.appended {
      assert x != left[0] ==> Count(s'.pool, x) == Count(s.pool, x);
    }
    forall x | x in s'.sweeper.since ensures CountedOnce(s'.pool, x) {
      assert CountedOnce(s.pool, x);
    }
    forall x | x in s'.sweeper.keep || x in s'.sweeper.left ensures Count(s'.pool, x) > 0 {
      assert Count(s'.pool, x) >= Count(s.pool, x);
    }
  }

  lemma WriteBackKeepsInv(c: Config, s: State)
    requires SweepInv(s) && Possible(s, WriteBack)
    ensures SweepInv(Make(c, s, WriteBack))
  {
    var s' := Make(c, s, WriteBack);
    forall x: nat | Count(s'.pool, x) > 0 ensures x in s'.pool.appended {
      OccursIff(s.sweeper.keep, x);
      assert x !in s.sweeper.keep ==> Count(s.pool, x) > 0;
    }
  }

  lemma MoveKeepsInv(c: Config, s: State, m: Move)
    requires SweepInv(s) && Possible(s, m)
    ensures SweepInv(Make(c, s, m))
  {
    match m
    case Thread(step) => ThreadKeepsInv(c, s, step);
    case Collect(idle, whole) => CollectKeepsInv(c, s, idle, whole);
    case CloseIdle => CloseIdleKeepsInv(c, s);
    case WriteBack => WriteBackKeepsInv(c, s);
    case _ =>
  }

  lemma {:induction false} SweepInvAlways(c: Config, states: seq<State>, moves: seq<Move>, i: nat)
    requires SweepRun(c, states, moves) && i < |states|
    ensures SweepInv(states[i])
  {
    if i == 0 {
      InvAlways(c, [states[0].pool], [], 0);
      assert forall x: nat :: CountedOnce(states[0].pool, x) ==> Count(states[0].pool, x) == One(x in states[0].pool.appended);
    } else {
      SweepInvAlways(c, states, moves, i - 1);
      MoveKeepsInv(c, states[i - 1], moves[i - 1]);
    }
  }

  // ----- Sweeps of services idle as a whole ------------------------------------------------------

  /** An open connection is in exactly one place once it has been appended. */
  ghost predicate OpenOnce(p: Pool) {
    forall x: nat :: x in p.closed || CountedOnce(p, x)
  }

  lemma MoveKeepsOpenOnce(c: Config, s: State, m: Move)
    requires SweepInv(s) && Possible(s, m) && !m.WriteBack? && OpenOnce(s.pool)
    ensures OpenOnce(Make(c, s, m).pool)
  {
    var s' := Make(c, s, m);
    forall x: nat ensures x in s'.pool.closed || CountedOnce(s'.pool, x) {
      if m.Thread? && x !in s.pool.closed {
        StepConserves(c, s.pool, m.step, x);
      } else if !m.Thread? {
        assert x in s.pool.closed || CountedOnce(s.pool, x);
      } else {
        StepLists(c, s.pool, m.step);
      }
    }
  }

  lemma {:induction false} OpenOnceAlways(c: Config, states: seq<State>, moves: seq<Move>, n: nat)
    requires SweepRun(c, states, moves) && n < |states| && states[n].writeBacks == 0
    ensures OpenOnce(states[n].pool)
  {
    if n == 0 {
      InvAlways(c, [states[0].pool], [], 0);
    } else {
      SweepInvAlways(c, states, moves, n - 1);
      OpenOnceAlways(c, states, moves, n - 1);
      MoveKeepsOpenOnce(c, states[n - 1], moves[n - 1]);
    }
  }

  /** As long as no list has been written back, sweeps that find the whole service idle included:
      an open connection is in exactly one place, and a closed one may still be listed. */
  lemma OpenIsInOnePlace(c: Config, states: seq<State>, moves: seq<Move>, n: nat, x: nat)
    requires SweepRun(c, states, moves) && n < |states| && states[n].writeBacks == 0
    ensures OpenOnce(states[n].pool)
    ensures var p := states[n].pool;
      && (x !in p.closed ==> Occurs(p.list, x) + AllPending(p.threads, x) == if x in p.appended then 1 else 0)
      && (x in p.closed ==> x in p.appended)
  {
    SweepInvAlways(c, states, moves, n);
    OpenOnceAlways(c, states, moves, n);
    assert x in states[n].pool.closed || CountedOnce(states[n].pool, x);
    assert Count(states[n].pool, x) > 0 ==> x in states[n].pool.appended;
  }

  // ----- What can be forgotten -------------------------------------------------------------------

  /** Some closer has found the pool and will take its list. */
  predicate CloserComes(p: Pool) {
    exists t | 0 <= t < |p.threads| :: p.threads[t].WantsClose? || p.threads[t].Emptying?
  }

  /** The list will be looked at again: by later calls, closers and sweeps, or by a closer on
      its way. */
  predicate Watched(s: State) { s.mapped || CloserComes(s.pool) }

  /** Connection `x` is closed, will be closed by a thread or by the sweep, or is listed where
      it will be found. */
  predicate Tracked(s: State, x: nat) {
    || Leaving(s.pool, x)
    || (s.sweeper.Swept? && x in s.sweeper.left)
    || (Watched(s) && x in s.pool.list)
  }

  /** No connection ever appended is left open and forgotten. */
  ghost predicate NoneForgotten(s: State) {
    forall x | x in s.pool.appended :: Tracked(s, x)
  }

  /** No connection appended since the collection is listed. */
  predicate NothingNew(s: State) {
    s.sweeper.Swept? ==> forall x | x in s.pool.list :: x !in s.sweeper.since
  }

  /** When a move forgets nothing: an append needs a list that will be looked at again, the end
      of a sweep must not find a connection appended since its collection, and a closer must
      find everything listed on its way out, unless another closer comes after. */
  predicate Safe(s: State, m: Move)
    requires Possible(s, m)
  {
    match m
    case Thread(step) => Watched(s) || !s.pool.threads[step.thread].Appending?
    case WriteBack => NothingNew(s)
    case Drop => NothingNew(s) || CloserComes(s.pool)
    case Remove(_) =>
      || CloserComes(s.pool)
      || forall x | x in s.pool.list :: Leaving(s.pool, x) || (s.sweeper.Swept? && x in s.sweeper.left)
    case _ => true
  }

  /** A watched list is watched until a closer takes it. */
  lemma StepKeepsWatch(c: Config, p: Pool, s: Step)
    requires Enabled(p, s) && CloserComes(p) && !p.threads[s.thread].Emptying?
    ensures CloserComes(Take(c, p, s))
  {
    var t :| 0 <= t < |p.threads| && (p.threads[t].WantsClose? || p.threads[t].Emptying?);
    var p' := Take(c, p, s);
    assert p'.threads[t].WantsClose? || p'.threads[t].Emptying?;
  }

  /** What is listed in a watched pool stays listed or is on its way out. */
  lemma StepKeepsListed(c: Config, p: Pool, s: Step, x: nat)
    requires Enabled(p, s) && Fresh(p) && x in p.list && x in p.appended
    ensures x in Take(c, p, s).list || Leaving(Take(c, p, s), x)
  {
    OccursIff(p.list, x);
    OccursIff(Take(c, p, s).list, x);
    StepKeepsPlaced(c, p, s, x);
  }

  lemma StepKeepsTracked(c: Config, s: State, step: Step, x: nat)
    requires SweepInv(s) && Possible(s, Thread(step)) && x in s.pool.appended && Tracked(s, x)
    ensures Tracked(Make(c, s, Thread(step)), x)
  {
    var p := s.pool;
    if Leaving(p, x) {
      StepKeepsLeaving(c, p, step, x);
    } else if Watched(s) && x in p.list {
      StepKeepsListed(c, p, step, x);
      if p.threads[step.thread].Emptying? {
        OccursIff(p.list, x);
        TakenIsLeaving(c, p, step, x);
      } else if CloserComes(p) {
        StepKeepsWatch(c, p, step);
      }
    }
  }

  /** An append makes nobody a closer. */
  lemma AppendKeepsWatch(c: Config, p: Pool, s: Step)
    requires Enabled(p, s) && p.threads[s.thread].Appending?
    ensures CloserComes(Take(c, p, s)) <==> CloserComes(p)
  {
    var p' := Take(c, p, s);
    if CloserComes(p) {
      StepKeepsWatch(c, p, s);
    } else {
      assert forall t | 0 <= t < |p'.threads| && t != s.thread :: p'.threads[t] == p.threads[t];
    }
  }

  /** What is appended is only listed. */
  lemma AppendedIsListed(c: Config, s: State, step: Step, x: nat)
    requires SweepInv(s) && Possible(s, Thread(step)) && s.pool.threads[step.thread] == Appending(x)
    ensures var s' := Make(c, s, Thread(step));
      && s'.pool.appended == s.pool.appended + {x} && x in s'.pool.list && (Tracked(s', x) <==> Watched(s))
  {
    var p' := Take(c, s.pool, step);
    AppendComesLast(c, s.pool, step);
    NewIsCountedOnce(c, s.pool, step, x);
    ListedOnceIsNotLeaving(p', x);
    AppendKeepsWatch(c, s.pool, step);
  }

  lemma ListedOnceIsNotLeaving(p: Pool, x: nat)
    requires CountedOnce(p, x) && x in p.list
    ensures !Leaving(p, x)
  {
    OccursIff(p.list, x);
  }

  lemma ThreadForgetsNothingExactlyWhen(c: Config, s: State, step: Step)
    requires SweepInv(s) && Possible(s, Thread(step)) && NoneForgotten(s)
    ensures NoneForgotten(Make(c, s, Thread(step))) <==> Safe(s, Thread(step))
  {
    var s' := Make(c, s, Thread(step));
    forall x | x in s.pool.appended ensures Tracked(s', x) {
      StepKeepsTracked(c, s, step, x);
    }
    if s.pool.threads[step.thread].Appending? {
      AppendedIsListed(c, s, step, s.pool.threads[step.thread].conn);
    }
  }

  /** A new connection that is listed is nowhere else. */
  lemma NewIsOnlyListed(s: State, x: nat)
    requires SweepInv(s) && s.sweeper.Swept? && x in s.sweeper.since && x in s.pool.list
    ensures x in s.pool.appended && !Leaving(s.pool, x) && x !in s.sweeper.keep && x !in s.sweeper.left
  {
    assert CountedOnce(s.pool, x);
    OccursIff(s.pool.list, x);
  }

  /** The two ends of a sweep that change where connections are found. */
  lemma EndForgetsNothingExactlyWhen(c: Config, s: State, m: Move)
    requires SweepInv(s) && Possible(s, m) && (m.WriteBack? || m.Drop?) && NoneForgotten(s)
    ensures NoneForgotten(Make(c, s, m)) <==> Safe(s, m)
  {
    var s' := Make(c, s, m);
    assert CloserComes(s'.pool) == CloserComes(s.pool);
    if Safe(s, m) {
      forall x | x in s'.pool.appended ensures Tracked(s', x) {
        assert Tracked(s, x);
      }
    } else {
      var x :| x in s.pool.list && x in s.sweeper.since;
      NewIsOnlyListed(s, x);
      assert !Tracked(s', x);
    }
  }

  lemma RemovalForgetsNothingExactlyWhen(c: Config, s: State, closer: nat)
    requires SweepInv(s) && Possible(s, Remove(closer)) && NoneForgotten(s)
    ensures NoneForgotten(Make(c, s, Remove(closer))) <==> Safe(s, Remove(closer))
  {
    var s' := Make(c, s, Remove(closer));
    ListIsKnown(s.pool);
    forall x | x in s.pool.appended
      ensures Tracked(s', x) <==> CloserComes(s.pool) || x !in s.pool.list || Leaving(s.pool, x)
                                  || (s.sweeper.Swept? && x in s.sweeper.left)
    {
      assert Tracked(s, x);
    }
  }

  /** Exactly when one move forgets nothing. */
  lemma MoveForgetsNothingExactlyWhen(c: Config, s: State, m: Move)
    requires SweepInv(s) && Possible(s, m) && NoneForgotten(s)
    ensures NoneForgotten(Make(c, s, m)) <==> Safe(s, m)
  {
    match m
    case Thread(step) => ThreadForgetsNothingExactlyWhen(c, s, step);
    case Collect(idle, whole) =>
      FilterKeeps(s.pool.list, idle);
      assert forall x | x in s.pool.appended :: Tracked(s, x) ==> Tracked(Make(c, s, m), x);
    case CloseIdle =>
      assert s.sweeper.left == [s.sweeper.left[0]] + s.sweeper.left[1..];
      assert forall x | x in s.pool.appended :: Tracked(s, x) ==> Tracked(Make(c, s, m), x);
    case WriteBack => EndForgetsNothingExactlyWhen(c, s, m);
    case Drop => EndForgetsNothingExactlyWhen(c, s, m);
    case Forget => assert forall x | x in s.pool.appended :: Tracked(s, x) ==> Tracked(Make(c, s, m), x);
    case Remove(closer) => RemovalForgetsNothingExactlyWhen(c, s, closer);
  }

  /** Exactly when a whole run never leaves a connection open and forgotten. */
  lemma {:induction false} RunForgetsNothingExactlyWhen(c: Config, states: seq<State>, moves: seq<Move>, n: nat)
    requires SweepRun(c, states, moves) && n < |states|
    ensures (forall i | 0 <= i <= n :: NoneForgotten(states[i])) <==> (forall k | 0 <= k < n :: Safe(states[k], moves[k]))
  {
    if n == 0 {
    } else {
      RunForgetsNothingExactlyWhen(c, states, moves, n - 1);
      SweepInvAlways(c, states, moves, n - 1);
      var s, m := states[n - 1], moves[n - 1];
      if NoneForgotten(s) {
        MoveForgetsNothingExactlyWhen(c, s, m);
        assert NoneForgotten(states[n]) <==> Safe(s, m);
      }
    }
  }

  /** CloseConnection takes the pool out of the map while it holds createMu: that is always safe,
      whatever a sweep writes back meanwhile. */
  lemma CloseConnectionForgetsNothing(s: State, t: nat)
    requires SweepInv(s) && t < |s.pool.threads| && s.pool.threads[t].ClosedAll? && s.mapped
    ensures Possible(s, Remove(t)) && Safe(s, Remove(t))
  {
    assert HasEmptied(s.pool.threads[t]);
  }

  /** A connection a write-back dropped is in no place and not held by the sweep. */
  predicate Lost(s: State, x: nat) {
    && x in s.pool.appended && Count(s.pool, x) == 0
    && (s.sweeper.Swept? ==> x !in s.sweeper.keep && x !in s.sweeper.left)
  }

  /** What is in no place is never found again. */
  lemma LostStaysLost(c: Config, s: State, m: Move, x: nat)
    requires SweepInv(s) && Possible(s, m) && Lost(s, x)
    ensures Lost(Make(c, s, m), x)
  {
    OccursIff(s.pool.list, x);
    match m
    case Thread(step) =>
      if s.pool.threads[step.thread].Closing? {
        OccursIff(s.pool.threads[step.thread].pending, x);
        PendingMoved(s.pool.threads, step.thread, Calling, x);
      }
      StepCounts(c, s.pool, step, x);
    case Collect(idle, whole) =>
      FilterKeeps(s.pool.list, idle);
      FilterKeeps(s.pool.list, Elements(s.pool.list) - idle);
    case WriteBack => OccursIff(s.sweeper.keep, x);
    case _ =>
  }

  /** An open connection listed in a pool out of the map that every thread has left. */
  predicate Orphaned(s: State, x: nat) {
    && !s.mapped && x in s.pool.list && x !in s.pool.closed
    && (s.sweeper.Swept? ==> x !in s.sweeper.left)
    && forall t | 0 <= t < |s.pool.threads| :: s.pool.threads[t].Done?
  }

  /** Nobody closes it any more. */
  lemma OrphanedStaysOpen(c: Config, s: State, m: Move, x: nat)
    requires Possible(s, m) && Orphaned(s, x)
    ensures Orphaned(Make(c, s, m), x)
  {
  }

  // ----- Capacity ---------------------------------------------------------------------------------

  /** Room for one more, where each write-back may have brought back one connection too many. */
  ghost predicate Roomy(c: Config, s: State) {
    var limit := Limit(c) + s.writeBacks;
    && |s.pool.list| <= limit && (s.sweeper.Swept? ==> |s.sweeper.keep| <= limit)
    && forall t | 0 <= t < |s.pool.threads| && HasRoom(s.pool.threads[t]) :: |s.pool.list| < limit
  }

  lemma ThreadKeepsRoom(c: Config, s: State, step: Step)
    requires SweepInv(s) && Roomy(c, s) && Possible(s, Thread(step))
    ensures Roomy(c, Make(c, s, Thread(step)))
  {
    var p, p' := s.pool, Make(c, s, Thread(step)).pool;
    ListSize(c, p, step);
    ClaimsArise(c, p, step);
    assert p.threads[step.thread].Appending? ==> p.createMu == Some(step.thread);
    forall t | 0 <= t < |p'.threads| && t != step.thread && HasRoom(p.threads[t])
      ensures !p.threads[step.thread].Appending? && p'.threads[t] == p.threads[t]
    {
      ClaimsHoldMu(p.threads[t]);
    }
  }

  lemma MoveKeepsRoom(c: Config, s: State, m: Move)
    requires SweepInv(s) && Roomy(c, s) && Possible(s, m)
    ensures Roomy(c, Make(c, s, m))
  {
    match m
    case Thread(step) => ThreadKeepsRoom(c, s, step);
    case Collect(idle, whole) => FilterKeeps(s.pool.list, Elements(s.pool.list) - idle);
    case _ =>
  }

  /** The list exceeds its limit by at most one connection for every write-back. */
  lemma {:induction false} SweptCapacity(c: Config, states: seq<State>, moves: seq<Move>, n: nat)
    requires SweepRun(c, states, moves) && n < |states|
    ensures Roomy(c, states[n]) && |states[n].pool.list| <= Max(1, c.maxConns) + states[n].writeBacks
  {
    if n == 0 {
    } else {
      SweptCapacity(c, states, moves, n - 1);
      SweepInvAlways(c, states, moves, n - 1);
      MoveKeepsRoom(c, states[n - 1], moves[n - 1]);
    }
  }
}
