/** The unary server chain: any number of calls run through the interceptors concurrently,
    each on its way down to the handler or unwinding with an outcome. */
module ServerChain {
  import opened Basics
  import opened Errors
  import opened ServerOptions
  import Breaker
  import B = BreakerRuns

  datatype Interceptor = Recovery | RateLimiting | Inflight | Breaking | Metrics | Logging
  {
    function Rank(): nat {
      match this
      case Recovery => 0 case RateLimiting => 1 case Inflight => 2
      case Breaking => 3 case Metrics => 4 case Logging => 5
    }
  }

  predicate Enabled(o: Option<Built>, x: Interceptor) {
    match x
    case Recovery => true
    case RateLimiting => o.Some? && o.value.limiter.Some?
    case Inflight => o.Some? && o.value.inflight.Some?
    case Breaking => o.Some? && o.value.breaker.Some?
    case Metrics => o.Some? ==> o.value.opts.enableMetrics
    case Logging => o.Some? ==> o.value.opts.enableRequestLogging
  }

  /** The chain holds, in order, the enabled interceptors up to rank `n`. */
  predicate BuiltUpTo(o: Option<Built>, chain: seq<Interceptor>, n: nat) {
    && WellBuilt(chain)
    && (forall i | 0 <= i < |chain| :: chain[i].Rank() < n && Enabled(o, chain[i]))
    && forall x: Interceptor :: Enabled(o, x) && x.Rank() < n ==> x in chain
  }

  /** Recovery always comes first, then exactly the enabled interceptors in order. */
  method GetServerInterceptorChain(o: Option<Built>) returns (chain: seq<Interceptor>)
    ensures WellBuilt(chain) && KeepsOrder(chain, [Recovery, RateLimiting, Inflight, Breaking, Metrics, Logging])
    ensures forall x: Interceptor :: x in chain <==> Enabled(o, x)
    ensures Recovery in chain
    ensures RateLimiting in chain <==> o.Some? && o.value.limiter.Some?
    ensures Inflight in chain <==> o.Some? && o.value.inflight.Some?
    ensures Breaking in chain <==> o.Some? && o.value.breaker.Some?
    ensures Metrics in chain <==> (o.Some? ==> o.value.opts.enableMetrics)
    ensures Logging in chain <==> (o.Some? ==> o.value.opts.enableRequestLogging)
  {
    chain := [Recovery];
    if o.Some? {
      chain := AppendIf(o, chain, RateLimiting, o.value.limiter.Some?);
      chain := AppendIf(o, chain, Inflight, o.value.inflight.Some?);
      chain := AppendIf(o, chain, Breaking, o.value.breaker.Some?);
      chain := AppendIf(o, chain, Metrics, o.value.opts.enableMetrics);
      chain := AppendIf(o, chain, Logging, o.value.opts.enableRequestLogging);
    } else {
      chain := AppendIf(o, chain, Metrics, true);
      chain := AppendIf(o, chain, Logging, true);
    }
    Complete(o, chain);
    RanksAreOrder(chain);
  }

  lemma RanksAreOrder(chain: seq<Interceptor>)
    requires WellBuilt(chain)
    ensures KeepsOrder(chain, [Recovery, RateLimiting, Inflight, Breaking, Metrics, Logging])
  {
    var order := [Recovery, RateLimiting, Inflight, Breaking, Metrics, Logging];
    forall i, j | 0 <= i < j < |chain| ensures Precedes(order, chain[i], chain[j]) {
      var x, y := chain[i], chain[j];
      assert order[x.Rank()] == x && order[y.Rank()] == y;
    }
  }

  lemma Complete(o: Option<Built>, chain: seq<Interceptor>)
    requires BuiltUpTo(o, chain, Logging.Rank() + 1)
    ensures forall x: Interceptor :: x in chain <==> Enabled(o, x)
  {
  }

  method AppendIf(o: Option<Built>, chain: seq<Interceptor>, x: Interceptor, on: bool) returns (r: seq<Interceptor>)
    requires BuiltUpTo(o, chain, x.Rank()) && on == Enabled(o, x)
    ensures BuiltUpTo(o, r, x.Rank() + 1)
  {
    r := if on then chain + [x] else chain;
    forall y: Interceptor | Enabled(o, y) && y.Rank() < x.Rank() + 1 ensures y in r {
      assert y.Rank() < x.Rank() ==> y in chain;
    }
  }

  predicate WellBuilt(chain: seq<Interceptor>) {
    && |chain| > 0 && chain[0] == Recovery
    && forall i, j | 0 <= i < j < |chain| :: chain[i].Rank() < chain[j].Rank()
  }

  /** How a handler or interceptor ends: with a response and an error, either possibly nil,
      or by panicking. */
  datatype Outcome = Returned(resp: Option<nat>, err: Option<Error>) | Panicked

  const INTERNAL := Returned(None, Some(StatusError(Internal)))
  const UNAVAILABLE := Returned(None, Some(StatusError(Unavailable)))

  /** The breaker interceptor's answer, from what Execute returned and what the handler did. */
  function BreakerAnswer(executeErr: Option<Error>, resp: Option<nat>, rpcErr: Option<Error>): Outcome {
    if executeErr.Some? && resp.None? && rpcErr.None? then UNAVAILABLE else Returned(resp, rpcErr)
  }

  /** `Down(d)`: about to enter interceptor d, or the handler at the end of the chain.
      `Up(d, o)`: interceptor d (or the handler) ended with o; interceptor d - 1 is next. */
  datatype Place = Down(depth: nat) | Up(depth: nat, o: Outcome)

  /** A call: `ask` is its admission's position in the breaker's log; `done` is set once the
      outcome has left the chain. `refused`: the breaker turned it away. `handled` is what the
      handler did, if it was reached, and `panicked` whether the handler or an interceptor
      panicked. */
  datatype Call = Call(place: Place, ask: Option<nat>, recorded: bool, done: bool, refused: bool,
                       handled: Option<Outcome>, panicked: bool)

  const ARRIVED := Call(Down(0), None, false, false, false, None, false)

  datatype Setup = Setup(chain: seq<Interceptor>, capacity: nat, config: Breaker.Config, t0: int)

  datatype Server = Server(calls: map<nat, Call>, sem: nat, log: seq<B.Event>, now: int)

  function Start(k: Setup): Server { Server(map[], 0, [], k.t0) }

  ghost predicate Ended(c: Call, c': Call, d: nat, o: Outcome) {
    c' == c.(place := Up(d, o), panicked := c.panicked || o.Panicked?)
  }

  /** Entering interceptor (or handler) `d`. Only shared pieces the interceptor owns change. */
  ghost predicate Enter(k: Setup, s: Server, c: Call, s': Server, c': Call) {
    var d := c.place.depth;
    if d >= |k.chain| then
      s' == s && exists o :: Ended(c.(handled := Some(o)), c', d, o)
    else
      match k.chain[d]
      case Recovery => s' == s && c' == c.(place := Down(d + 1))
      case RateLimiting =>
        s' == s && (c' == c.(place := Down(d + 1)) || exists e :: Ended(c, c', d, Returned(None, Some(e))))
      case Inflight =>
        || (s.sem < k.capacity && s' == s.(sem := s.sem + 1) && c' == c.(place := Down(d + 1)))
        || (s' == s && exists e :: Ended(c, c', d, Returned(None, Some(e))))
      case Breaking =>
        && s'.now >= s.now && s' == s.(now := s'.now, log := s.log + [B.Ask(s'.now)])
        && c' == if Breaker.Allow(k.config, B.After(k.config, k.t0, s.log), s'.now).1
                 then c.(place := Down(d + 1), ask := Some(|s.log|))
                 else c.(place := Up(d, BreakerAnswer(Some(PLAIN), None, None)), refused := true)
      case _ => s' == s && (c' == c.(place := Down(d + 1)) || Ended(c, c', d, Panicked))
  }

  /** Interceptor d - 1 sees outcome `o` come back, by return or by panic. */
  ghost predicate Leave(k: Setup, s: Server, c: Call, s': Server, c': Call)
    requires c.place.Up? && 0 < c.place.depth <= |k.chain|
  {
    var d, o := c.place.depth - 1, c.place.o;
    match k.chain[d]
    case Recovery => s' == s && Ended(c, c', d, if o.Panicked? then INTERNAL else o)
    case RateLimiting => s' == s && Ended(c, c', d, o)
    case Inflight => s.sem > 0 && s' == s.(sem := s.sem - 1) && Ended(c, c', d, o)
    case Breaking =>
      && c.ask.Some? && s'.now >= s.now
      && (var err := match o case Returned(_, e) => e case Panicked => Some(PLAIN);
          s' == s.(now := s'.now, log := s.log + [B.Result(c.ask.value, IsFailure(err), s'.now)]))
      && (var answer := match o case Returned(resp, e) => BreakerAnswer(e, resp, e) case Panicked => Panicked;
          c' == c.(place := Up(d, answer), recorded := true))
    case _ => s' == s && (Ended(c, c', d, o) || Ended(c, c', d, Panicked))
  }

  ghost predicate CallStep(k: Setup, s: Server, c: Call, s': Server, c': Call) {
    && !c.done
    && match c.place
       case Down(_) => Enter(k, s, c, s', c')
       case Up(d, _) =>
         if d == 0 then s' == s && c' == c.(done := true)
         else d <= |k.chain| && Leave(k, s, c, s', c')
  }

  /** A new call arrives, or one call takes a step. */
  ghost predicate Next(k: Setup, s: Server, s': Server) {
    || (exists id: nat :: id !in s.calls && s' == s.(calls := s.calls[id := ARRIVED]))
    || (exists id :: id in s.calls && Moves(k, s, s', id))
  }

  ghost predicate Moves(k: Setup, s: Server, s': Server, id: nat)
    requires id in s.calls
  {
    && id in s'.calls && s'.calls == s.calls[id := s'.calls[id]]
    && CallStep(k, s, s.calls[id], s'.(calls := s.calls), s'.calls[id])
  }

  ghost predicate Execution(k: Setup, t: seq<Server>) {
    && |t| > 0 && t[0] == Start(k)
    && forall i | 0 <= i < |t| - 1 :: Next(k, t[i], t[i + 1])
  }

  // ----- What every execution keeps ---------------------------------------------------

  /** The call has entered the interceptor of kind `x` and not yet left it. */
  predicate Inside(k: Setup, c: Call, x: Interceptor) {
    exists i | 0 <= i < |k.chain| :: k.chain[i] == x && i < c.place.depth
  }

  ghost function Holders(k: Setup, s: Server): set<nat> {
    set id | id in s.calls && Inside(k, s.calls[id], Inflight)
  }

  /** The outcome on its way out: a panic until recovery turns it into Internal, otherwise the
      handler's answer untouched, or an error if some interceptor turned the call away. */
  predicate AnswerOk(c: Call, depth: nat, o: Outcome) {
    if c.panicked then o == (if depth > 0 then Panicked else INTERNAL)
    else if c.handled.Some? then o == c.handled.value && !o.Panicked?
    else o.Returned? && o.err.Some? && (c.refused ==> o == UNAVAILABLE)
  }

  /** A call's way through the chain. */
  ghost predicate PathOk(k: Setup, c: Call) {
    && c.place.depth <= |k.chain|
    && (c.done ==> c.place.Up? && c.place.depth == 0)
    && (c.place.Up? ==> AnswerOk(c, c.place.depth, c.place.o))
    && (c.place.Down? ==> !c.panicked && c.handled.None? && !c.refused)
    && (c.refused ==> c.place.Up? && c.handled.None? && !c.panicked)
    && (c.refused || c.recorded ==> forall i | 0 <= i < c.place.depth :: k.chain[i].Rank() < Breaking.Rank())
  }

  /** What the breaker is to be told of a call: that it failed if anything panicked, or if the
      handler returned an error that counts. */
  predicate Verdict(c: Call) {
    c.panicked || (c.handled.Some? && c.handled.value.Returned? && IsFailure(c.handled.value.err))
  }

  /** Positions of the log that record the result of request `ask`. */
  ghost function ResultsOf(log: seq<B.Event>, ask: nat): set<nat> {
    set i | 0 <= i < |log| && log[i].Result? && log[i].ask == ask
  }

  /** A call's standing with the breaker: not asked, or admitted and pending, or recorded. */
  ghost predicate AskOk(k: Setup, log: seq<B.Event>, c: Call) {
    && (Inside(k, c, Breaking) <==> c.ask.Some? && !c.recorded)
    && (c.recorded ==> c.ask.Some? && c.place.Up?)
    && (c.refused ==> c.ask.None?)
    && (c.ask.Some? ==>
          && c.ask.value < |log| && B.Admitted(k.config, k.t0, log, c.ask.value)
          && (B.Completed(log, c.ask.value) <==> c.recorded))
    && (c.ask.Some? && c.place.Up? ==> c.panicked || c.handled.Some?)
    && (c.ask.Some? ==> forall i | i in ResultsOf(log, c.ask.value) :: log[i].failed == Verdict(c))
  }

  ghost predicate CallOk(k: Setup, log: seq<B.Event>, c: Call) {
    PathOk(k, c) && AskOk(k, log, c)
  }

  ghost predicate LogOk(k: Setup, s: Server) {
    && B.Run(k.config, k.t0, s.log) && k.t0 <= s.now
    && forall i | 0 <= i < |s.log| :: s.log[i].at <= s.now
  }

  /** No two calls share an admission. */
  ghost predicate AsksDistinct(s: Server) {
    forall a, b | a in s.calls && b in s.calls && a != b && s.calls[a].ask.Some? ::
      s.calls[a].ask != s.calls[b].ask
  }

  ghost predicate Inv(k: Setup, s: Server) {
    && LogOk(k, s) && AsksDistinct(s)
    && (forall id | id in s.calls :: CallOk(k, s.log, s.calls[id]))
    && s.sem == |Holders(k, s)| <= k.capacity
  }

  /** An event leaves the standing of every request it does not complete. */
  lemma StandingKept(k: Setup, log: seq<B.Event>, e: B.Event, c: Call)
    requires CallOk(k, log, c) && (c.ask.Some? && e.Result? ==> e.ask != c.ask.value)
    ensures CallOk(k, log + [e], c)
  {
    if c.ask.Some? {
      B.PrefixAgrees(k.config, k.t0, log, e, c.ask.value);
      B.CompletedStep(log, e, c.ask.value);
    }
  }

  // ----- Preservation -----------------------------------------------------------------

  lemma InsideDeeper(k: Setup, c: Call, c': Call, x: Interceptor)
    requires WellBuilt(k.chain) && c'.place.depth == c.place.depth + 1 <= |k.chain|
    ensures Inside(k, c', x) <==> Inside(k, c, x) || k.chain[c.place.depth] == x
    ensures k.chain[c.place.depth] == x ==> !Inside(k, c, x)
  {
    assert k.chain[c.place.depth] == x ==> Inside(k, c', x);
  }

  function One(b: bool): int { if b then 1 else 0 }

  /** The semaphore moves with the one call that enters or leaves its interceptor. */
  lemma SemFollows(k: Setup, s: Server, c: Call, s': Server, c': Call)
    requires WellBuilt(k.chain) && c.place.depth <= |k.chain| && s.sem <= k.capacity
    requires CallStep(k, s, c, s', c')
    ensures s'.sem == s.sem + One(Inside(k, c', Inflight)) - One(Inside(k, c, Inflight))
    ensures s'.sem <= k.capacity
  {
    if c'.place.depth > c.place.depth {
      InsideDeeper(k, c, c', Inflight);
    } else if c'.place.depth < c.place.depth {
      InsideDeeper(k, c', c, Inflight);
    }
  }

  lemma HoldersFollow(k: Setup, s: Server, s': Server, id: nat, c': Call)
    requires s'.calls == s.calls[id := c']
    ensures |Holders(k, s')| == |Holders(k, s)| + One(Inside(k, c', Inflight))
                              - One(id in s.calls && Inside(k, s.calls[id], Inflight))
  {
    assert Holders(k, s') - {id} == Holders(k, s) - {id};
    SizeWithout(Holders(k, s'), id);
    SizeWithout(Holders(k, s), id);
  }

  lemma SizeWithout(ids: set<nat>, id: nat)
    ensures |ids| == |ids - {id}| + One(id in ids)
  {
    assert ids == if id in ids then ids - {id} + {id} else ids - {id};
  }

  /** What a call's step does to the breaker's log. */
  ghost predicate LogStep(k: Setup, s: Server, c: Call, s': Server, c': Call) {
    || (s'.log == s.log && s'.now == s.now && c'.ask == c.ask)
    || (s'.now >= s.now && s'.log == s.log + [B.Ask(s'.now)] && c.ask.None?
        && (c'.ask.None? || c'.ask == Some(|s.log|)))
    || (s'.now >= s.now && c.ask.Some? && c'.ask == c.ask && !c.recorded
        && exists failed :: s'.log == s.log + [B.Result(c.ask.value, failed, s'.now)])
  }

  lemma StepLogs(k: Setup, s: Server, c: Call, s': Server, c': Call)
    requires WellBuilt(k.chain) && CallOk(k, s.log, c) && CallStep(k, s, c, s', c')
    ensures LogStep(k, s, c, s', c')
  {
    if c.place.Down? && c.place.depth < |k.chain| && k.chain[c.place.depth] == Breaking {
      InsideDeeper(k, c, c.(place := Down(c.place.depth + 1)), Breaking);
    } else if c.place.Up? && c.place.depth > 0 && k.chain[c.place.depth - 1] == Breaking {
      assert Inside(k, c, Breaking);
    }
  }

  lemma LogStepRun(k: Setup, s: Server, c: Call, s': Server, c': Call)
    requires LogOk(k, s) && CallOk(k, s.log, c) && LogStep(k, s, c, s', c')
    ensures LogOk(k, s')
  {
    if s'.log != s.log {
      B.RunExtends(k.config, k.t0, s.log, s'.log[|s.log|]);
    }
  }

  lemma AsksStayDistinct(k: Setup, s: Server, s': Server, id: nat)
    requires AsksDistinct(s) && id in s.calls && id in s'.calls && s'.calls == s.calls[id := s'.calls[id]]
    requires forall a | a in s.calls :: CallOk(k, s.log, s.calls[a])
    requires s'.calls[id].ask == s.calls[id].ask || s'.calls[id].ask in {None, Some(|s.log|)}
    ensures AsksDistinct(s')
  {
    forall a, b | a in s'.calls && b in s'.calls && a != b && s'.calls[a].ask.Some?
      ensures s'.calls[a].ask != s'.calls[b].ask
    {
      assert CallOk(k, s.log, s.calls[a]) && CallOk(k, s.log, s.calls[b]);
    }
  }

  /** The moving call stays on its way. */
  lemma MoverPathOk(k: Setup, s: Server, c: Call, s': Server, c': Call)
    requires WellBuilt(k.chain) && CallOk(k, s.log, c) && CallStep(k, s, c, s', c')
    ensures PathOk(k, c')
  {
  }

  /** An admission asked for or completed in this step. */
  lemma MoverAsks(k: Setup, s: Server, c: Call, s': Server, c': Call)
    requires WellBuilt(k.chain) && B.Run(k.config, k.t0, s.log)
    requires CallOk(k, s.log, c) && CallStep(k, s, c, s', c') && s'.log != s.log
    ensures c'.ask.Some? ==>
      && c'.ask.value < |s'.log| && B.Admitted(k.config, k.t0, s'.log, c'.ask.value)
      && (B.Completed(s'.log, c'.ask.value) <==> c'.recorded)
      && forall i | i in ResultsOf(s'.log, c'.ask.value) :: s'.log[i].failed == Verdict(c')
  {
    var e := s'.log[|s.log|];
    B.AdmissionsStep(k.config, k.t0, s.log, e);
    if c.ask.Some? {
      B.PrefixAgrees(k.config, k.t0, s.log, e, c.ask.value);
      B.CompletedStep(s.log, e, c.ask.value);
    } else {
      B.CompletedStep(s.log, e, |s.log|);
      assert forall i | 0 <= i < |s.log| && s.log[i].Result? :: s.log[i].ask < i;
    }
  }

  /** Without a new event the verdict on a recorded call stands. */
  lemma MoverVerdict(k: Setup, s: Server, c: Call, s': Server, c': Call)
    requires WellBuilt(k.chain) && CallOk(k, s.log, c) && CallStep(k, s, c, s', c') && s'.log == s.log
    ensures c'.ask == c.ask && c'.recorded == c.recorded
    ensures c.ask.Some? ==> forall i | i in ResultsOf(s.log, c.ask.value) :: s.log[i].failed == Verdict(c')
  {
    if c.ask.Some? && !c.recorded {
      assert ResultsOf(s.log, c.ask.value) == {};
    } else if c.recorded {
      assert Verdict(c') == Verdict(c);
    }
  }

  /** The moving call keeps its standing. */
  lemma MoverOk(k: Setup, s: Server, c: Call, s': Server, c': Call)
    requires WellBuilt(k.chain) && B.Run(k.config, k.t0, s.log)
    requires CallOk(k, s.log, c) && CallStep(k, s, c, s', c')
    ensures CallOk(k, s'.log, c')
  {
    MoverPathOk(k, s, c, s', c');
    if c'.place.depth > c.place.depth {
      InsideDeeper(k, c, c', Breaking);
    } else if c'.place.depth < c.place.depth {
      InsideDeeper(k, c', c, Breaking);
    }
    if s'.log != s.log {
      MoverAsks(k, s, c, s', c');
    } else {
      MoverVerdict(k, s, c, s', c');
    }
  }

  lemma OthersOk(k: Setup, s: Server, s': Server, id: nat)
    requires Inv(k, s) && id in s.calls && id in s'.calls && s'.calls == s.calls[id := s'.calls[id]]
    requires LogStep(k, s, s.calls[id], s', s'.calls[id])
    ensures forall a | a in s.calls && a != id :: CallOk(k, s'.log, s.calls[a])
  {
    forall a | a in s.calls && a != id ensures CallOk(k, s'.log, s.calls[a]) {
      if s'.log != s.log {
        StandingKept(k, s.log, s'.log[|s.log|], s.calls[a]);
      }
    }
  }

  lemma MoveKeepsInv(k: Setup, s: Server, s': Server, id: nat)
    requires WellBuilt(k.chain) && Inv(k, s) && id in s.calls && Moves(k, s, s', id)
    ensures Inv(k, s')
  {
    var c, c', mid := s.calls[id], s'.calls[id], s'.(calls := s.calls);
    StepLogs(k, s, c, mid, c');
    LogStepRun(k, s, c, mid, c');
    MoverOk(k, s, c, mid, c');
    OthersOk(k, s, s', id);
    AsksStayDistinct(k, s, s', id);
    SemFollows(k, s, c, mid, c');
    HoldersFollow(k, s, s', id, c');
  }

  lemma ArrivalKeepsInv(k: Setup, s: Server, s': Server, id: nat)
    requires Inv(k, s) && id !in s.calls && s' == s.(calls := s.calls[id := ARRIVED])
    ensures Inv(k, s')
  {
    HoldersFollow(k, s, s', id, ARRIVED);
  }

  lemma {:induction false} InvAlways(k: Setup, t: seq<Server>, n: nat)
    requires WellBuilt(k.chain) && Execution(k, t) && n < |t|
    ensures Inv(k, t[n])
  {
    if n == 0 {
      assert Holders(k, t[0]) == {};
    } else {
      InvAlways(k, t, n - 1);
      var s, s' := t[n - 1], t[n];
      assert Next(k, s, s');
      if id: nat :| id !in s.calls && s' == s.(calls := s.calls[id := ARRIVED]) {
        ArrivalKeepsInv(k, s, s', id);
      } else {
        var id :| id in s.calls && Moves(k, s, s', id);
        MoveKeepsInv(k, s, s', id);
      }
    }
  }

  // ----- Progress -----------------------------------------------------------------------

  /** What a call may do next: its handler or interceptor answers, or it takes what is free. */
  lemma CanMove(k: Setup, s: Server, c: Call) returns (s': Server, c': Call)
    requires WellBuilt(k.chain) && CallOk(k, s.log, c) && !c.done
    requires Inside(k, c, Inflight) ==> s.sem > 0
    ensures CallStep(k, s, c, s', c') && s'.calls == s.calls
  {
    match c.place
    case Down(d) =>
      s', c' := CanEnter(k, s, c);
    case Up(d, o) =>
      if d == 0 {
        s', c' := s, c.(done := true);
      } else {
        s', c' := CanLeave(k, s, c);
      }
  }

  lemma CanEnter(k: Setup, s: Server, c: Call) returns (s': Server, c': Call)
    requires WellBuilt(k.chain) && CallOk(k, s.log, c) && c.place.Down?
    ensures Enter(k, s, c, s', c') && s'.calls == s.calls
  {
    var d := c.place.depth;
    s', c' := s, c.(place := Down(d + 1));
    if d >= |k.chain| {
      c' := c.(handled := Some(INTERNAL), place := Up(d, INTERNAL));
      assert Ended(c.(handled := Some(INTERNAL)), c', d, INTERNAL);
    } else if k.chain[d] == Inflight && s.sem < k.capacity {
      s' := s.(sem := s.sem + 1);
    } else if k.chain[d] == Inflight {
      c' := c.(place := Up(d, Returned(None, Some(PLAIN))));
      assert Ended(c, c', d, Returned(None, Some(PLAIN)));
    } else if k.chain[d] == Breaking {
      s' := s.(log := s.log + [B.Ask(s.now)]);
      c' := if Breaker.Allow(k.config, B.After(k.config, k.t0, s.log), s.now).1
            then c.(place := Down(d + 1), ask := Some(|s.log|))
            else c.(place := Up(d, BreakerAnswer(Some(PLAIN), None, None)), refused := true);
    }
  }

  lemma CanLeave(k: Setup, s: Server, c: Call) returns (s': Server, c': Call)
    requires WellBuilt(k.chain) && CallOk(k, s.log, c) && c.place.Up? && c.place.depth > 0
    requires Inside(k, c, Inflight) ==> s.sem > 0
    ensures Leave(k, s, c, s', c') && s'.calls == s.calls
  {
    var d, o := c.place.depth - 1, c.place.o;
    s', c' := s, c.(place := Up(d, o));
    match k.chain[d]
    case Recovery => c' := c.(place := Up(d, if o.Panicked? then INTERNAL else o));
    case Inflight =>
      assert Inside(k, c, Inflight);
      s' := s.(sem := s.sem - 1);
    case Breaking =>
      assert Inside(k, c, Breaking);
      var err := match o case Returned(_, e) => e case Panicked => Some(PLAIN);
      s' := s.(log := s.log + [B.Result(c.ask.value, IsFailure(err), s.now)]);
      c' := c.(place := Up(d, match o case Returned(resp, e) => BreakerAnswer(e, resp, e) case Panicked => Panicked),
               recorded := true);
    case _ =>
  }

  /** No call waits for another: in every reachable state each unfinished one can go on. */
  lemma NoCallIsStuck(k: Setup, t: seq<Server>, n: nat, id: nat) returns (s': Server)
    requires WellBuilt(k.chain) && Execution(k, t) && n < |t| && id in t[n].calls && !t[n].calls[id].done
    ensures Moves(k, t[n], s', id) && Next(k, t[n], s')
  {
    InvAlways(k, t, n);
    var s, c := t[n], t[n].calls[id];
    if Inside(k, c, Inflight) {
      assert id in Holders(k, s);
    }
    var mid, c' := CanMove(k, s, c);
    s' := mid.(calls := s.calls[id := c']);
    assert s'.(calls := s.calls) == mid;
  }

  /** A slot is given if and only if one is free. */
  lemma SlotGivenExactlyWhen(k: Setup, s: Server, c: Call)
    requires WellBuilt(k.chain) && CallOk(k, s.log, c) && !c.done
    requires c.place.Down? && c.place.depth < |k.chain| && k.chain[c.place.depth] == Inflight
    ensures (exists s', c' :: CallStep(k, s, c, s', c') && Inside(k, c', Inflight)) <==> s.sem < k.capacity
  {
    var d := c.place.depth;
    var inside := c.(place := Down(d + 1));
    InsideDeeper(k, c, inside, Inflight);
    if s.sem < k.capacity {
      assert CallStep(k, s, c, s.(sem := s.sem + 1), inside);
    }
  }

  // ----- The results --------------------------------------------------------------------

  /** Whatever handlers and interceptors do, what leaves the chain is no panic: it is Internal
      if anything panicked, else the handler's own answer, else a rejection's error. */
  lemma NoPanicEscapes(k: Setup, t: seq<Server>, n: nat, id: nat)
    requires WellBuilt(k.chain) && Execution(k, t) && n < |t| && id in t[n].calls && t[n].calls[id].done
    ensures var c := t[n].calls[id];
      && c.place.Up? && !c.place.o.Panicked?
      && (c.panicked ==> c.place.o == Returned(None, Some(Error(false, false, Some(Internal)))))
      && (!c.panicked && c.handled.Some? ==> c.place.o == c.handled.value)
      && (c.handled.None? ==> c.place.o.err.Some?)
      && (c.refused ==> c.place.o == Returned(None, Some(Error(false, false, Some(Unavailable)))) && c.handled.None? && !c.panicked)
  {
    InvAlways(k, t, n);
  }

  ghost function Pending(k: Setup, s: Server): set<nat> {
    set id | id in s.calls && Inside(k, s.calls[id], Breaking)
  }

  lemma SlotBeforeBreaker(k: Setup, c: Call)
    requires WellBuilt(k.chain) && Inflight in k.chain && Inside(k, c, Breaking)
    ensures Inside(k, c, Inflight)
  {
    var p :| 0 <= p < |k.chain| && k.chain[p] == Inflight;
    var i :| 0 <= i < |k.chain| && k.chain[i] == Breaking && i < c.place.depth;
    assert p < i;
  }

  /** The in-flight interceptor is outside the breaker: where both are enabled, a call that has
      asked the breaker and not reported back holds a slot, so there are no more of those than
      slots. */
  lemma AdmittedHoldSlots(k: Setup, t: seq<Server>, n: nat)
    requires WellBuilt(k.chain) && Execution(k, t) && n < |t| && Inflight in k.chain
    ensures Pending(k, t[n]) <= Holders(k, t[n]) && |Pending(k, t[n])| <= k.capacity
  {
    InvAlways(k, t, n);
    forall id | id in Pending(k, t[n]) ensures id in Holders(k, t[n]) {
      SlotBeforeBreaker(k, t[n].calls[id]);
    }
    SubsetSize(Pending(k, t[n]), Holders(k, t[n]));
  }

  /** The semaphore counts exactly the calls between acquire and release. */
  lemma InflightIsExact(k: Setup, t: seq<Server>, n: nat)
    requires WellBuilt(k.chain) && Execution(k, t) && n < |t|
    ensures t[n].sem == |Holders(k, t[n])| <= k.capacity
  {
    InvAlways(k, t, n);
  }

  /** The chain drives its breaker only through runs of BreakerRuns, so all that is proved of
      runs holds of it. A finished call that was admitted has recorded exactly one result, a
      call still inside none, and no result belongs to anything but an admission. */
  lemma OneResultPerAdmission(k: Setup, t: seq<Server>, n: nat, id: nat)
    requires WellBuilt(k.chain) && Execution(k, t) && n < |t| && id in t[n].calls
    ensures B.Run(k.config, k.t0, t[n].log)
    ensures var c := t[n].calls[id];
      c.ask.Some? ==>
        && c.ask.value < |t[n].log| && B.Admitted(k.config, k.t0, t[n].log, c.ask.value)
        && |ResultsOf(t[n].log, c.ask.value)| == (if Inside(k, c, Breaking) then 0 else 1)
        && forall i | i in ResultsOf(t[n].log, c.ask.value) ::
             t[n].log[i].failed <==>
               c.panicked || (c.handled.Some? && c.handled.value.Returned? && IsFailure(c.handled.value.err))
    ensures t[n].calls[id].done ==> !Inside(k, t[n].calls[id], Breaking)
  {
    InvAlways(k, t, n);
    var log, c := t[n].log, t[n].calls[id];
    if c.ask.Some? {
      var r := ResultsOf(log, c.ask.value);
      if Inside(k, c, Breaking) {
        assert r == {};
      } else {
        var i :| 0 <= i < |log| && log[i].Result? && log[i].ask == c.ask.value;
        forall j | j in r ensures j == i {
          B.ResultsDistinct(k.config, k.t0, log, i);
          B.ResultsDistinct(k.config, k.t0, log, j);
        }
        assert r == {i};
      }
    }
  }
}
