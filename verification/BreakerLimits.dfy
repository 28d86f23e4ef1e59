/** How far a breaker's runs can go, for every configuration: runs that reach each bound on
    the probes in flight, and runs in which one late failure prolongs an outage. */
module BreakerLimits {
  import opened Basics
  import opened Breaker
  import opened BreakerRuns

  /** When the first probe of these runs is sent: as soon as a breaker opened at `t0` allows. */
  function ProbeTime(c: Config, t0: int): int { t0 + Max(0, c.recoveryTimeout) }

  predicate By(log: seq<Event>, now: int) {
    forall i | 0 <= i < |log| :: log[i].at <= now
  }

  /** Request `i` was admitted and has not completed. */
  predicate InFlight(c: Config, t0: int, log: seq<Event>, i: nat) {
    i < |log| && Admitted(c, t0, log, i) && !Completed(log, i)
  }

  /** The requests from `first` to `n` are in flight, the log is a run, and `now` is no
      earlier than any of it. */
  ghost predicate Going(c: Config, t0: int, log: seq<Event>, first: nat, n: nat, now: int) {
    && Run(c, t0, log) && t0 <= now && By(log, now)
    && forall i | first <= i < n :: InFlight(c, t0, log, i)
  }

  lemma InFlightStays(c: Config, t0: int, log: seq<Event>, e: Event, i: nat)
    requires InFlight(c, t0, log, i) && (e.Result? ==> e.ask != i)
    ensures InFlight(c, t0, log + [e], i)
  {
    PrefixAgrees(c, t0, log, e, i);
    CompletedStep(log, e, i);
  }

  /** A run goes on with a request, or with the completion of one in flight. */
  lemma GoesOn(c: Config, t0: int, log: seq<Event>, first: nat, n: nat, e: Event)
    requires Going(c, t0, log, first, n, e.at)
    requires e.Result? ==> InFlight(c, t0, log, e.ask) && !(first < e.ask < n)
    ensures var first' := if e.Result? && e.ask == first then first + 1 else first;
      Going(c, t0, log + [e], first', n, e.at)
    ensures After(c, t0, log + [e]) == Apply(c, After(c, t0, log), e)
    ensures n == |log| && Admits(c, After(c, t0, log), e) ==> InFlight(c, t0, log + [e], n)
  {
    RunExtends(c, t0, log, e);
    AfterStep(c, t0, log, e);
    AdmissionsStep(c, t0, log, e);
    forall i | first <= i < n && (e.Result? ==> e.ask != i) ensures InFlight(c, t0, log + [e], i) {
      InFlightStays(c, t0, log, e, i);
    }
    CompletedStep(log, e, |log|);
  }

  // ----- From Closed to Open ------------------------------------------------------------

  /** `n` requests in flight in a breaker that has seen nothing else. */
  lemma {:induction false} Crowd(c: Config, t0: int, n: nat) returns (log: seq<Event>)
    ensures |log| == n && Going(c, t0, log, 0, n, t0) && After(c, t0, log) == Initial(t0)
  {
    if n == 0 {
      log := [];
    } else {
      log := Crowd(c, t0, n - 1);
      GoesOn(c, t0, log, 0, n - 1, Ask(t0));
      log := log + [Ask(t0)];
    }
  }

  /** One more request that fails at once, in a Closed breaker. */
  lemma FailOnce(c: Config, t0: int, log: seq<Event>, n: nat) returns (log': seq<Event>)
    requires Going(c, t0, log, 0, n, t0) && n <= |log| && After(c, t0, log).state == Closed
    ensures Going(c, t0, log', 0, n, t0) && n <= |log'|
    ensures After(c, t0, log') == Record(c, After(c, t0, log), true, t0)
  {
    GoesOn(c, t0, log, 0, n, Ask(t0));
    log' := log + [Ask(t0)];
    GoesOn(c, t0, log, |log|, |log|, Ask(t0));
    GoesOn(c, t0, log', 0, n, Result(|log|, true, t0));
    log' := log' + [Result(|log|, true, t0)];
  }

  lemma {:induction false} Fail(c: Config, t0: int, n: nat, f: nat) returns (log: seq<Event>)
    requires f <= Max(1, c.failureThreshold)
    ensures Going(c, t0, log, 0, n, t0) && n <= |log|
    ensures f < Max(1, c.failureThreshold) ==> After(c, t0, log).state == Closed && After(c, t0, log).failures == f
    ensures f == Max(1, c.failureThreshold) ==> After(c, t0, log).state == Open && After(c, t0, log).lastFailureTime == t0
  {
    if f == 0 {
      log := Crowd(c, t0, n);
    } else {
      log := Fail(c, t0, n, f - 1);
      log := FailOnce(c, t0, log, n);
    }
  }

  // ----- A crowded half-open era ---------------------------------------------------------

  /** A half-open era with `live` probes in flight, `stale` older requests completed in it and
      the others of the first `n` still in flight. */
  ghost predicate Era(c: Config, t0: int, log: seq<Event>, n: nat, live: nat, stale: nat) {
    var b := After(c, t0, log);
    && Going(c, t0, log, stale, n, ProbeTime(c, t0)) && n < EraStart(c, t0, log)
    && b.state == HalfOpen && b.lastStateChange == ProbeTime(c, t0) && b.successes == stale
    && b.concurrentRequests == live - 1 - stale
    && |LiveProbes(c, t0, log)| == live && StaleInEra(c, t0, log) == stale
  }

  lemma OpenWithProbe(c: Config, t0: int, n: nat) returns (log: seq<Event>)
    ensures Era(c, t0, log, n, 1, 0)
  {
    var p := Fail(c, t0, n, Max(1, c.failureThreshold));
    var e := Ask(ProbeTime(c, t0));
    log := p + [e];
    GoesOn(c, t0, p, 0, n, e);
    AfterStep(c, t0, p, e);
    GoesOn(c, t0, p, |p|, |p|, e);
    assert LiveProbes(c, t0, log) == {|p|};
    assert log[EraStart(c, t0, log)..] == [];
  }

  lemma LiveGains(adm: seq<bool>, adm': seq<bool>, p: seq<Event>, a: bool, e: Event, first: nat)
    requires WellLogged(adm, p) && first <= |p| && (e.Result? ==> e.ask < first && !a)
    requires adm' == adm + [a]
    ensures |Live(adm', p + [e], first)| == |Live(adm, p, first)| + (if a then 1 else 0)
  {
    LiveStep(adm, p, a, e, first);
    assert Live(adm', p + [e], first) == Live(adm, p, first) + (if a then {|p|} else {});
  }

  lemma SameEra(c: Config, t0: int, p: seq<Event>, e: Event)
    requires Apply(c, After(c, t0, p), e).state == After(c, t0, p).state
    ensures EraStart(c, t0, p + [e]) == EraStart(c, t0, p)
  {
    AfterStep(c, t0, p, e);
  }

  lemma EraLive(c: Config, t0: int, p: seq<Event>, e: Event, n: nat, adm: seq<bool>, adm': seq<bool>)
    requires WellLogged(adm, p) && EraStart(c, t0, p) == EraStart(c, t0, p + [e]) == n > 0
    requires adm == Admissions(c, t0, p) && adm' == Admissions(c, t0, p + [e]) == adm + [Admits(c, After(c, t0, p), e)]
    requires e.Result? ==> e.ask < n - 1
    ensures |LiveProbes(c, t0, p + [e])| == |LiveProbes(c, t0, p)| + (if Admits(c, After(c, t0, p), e) then 1 else 0)
  {
    LiveGains(adm, adm', p, Admits(c, After(c, t0, p), e), e, n - 1);
  }

  lemma EraStale(c: Config, t0: int, p: seq<Event>, e: Event, n: nat)
    requires EraStart(c, t0, p) == EraStart(c, t0, p + [e]) == n > 0 && (e.Result? ==> e.ask < n - 1)
    ensures StaleInEra(c, t0, p + [e]) == StaleInEra(c, t0, p) + (if e.Result? then 1 else 0)
  {
    StaleStep(p, e, n, n - 1);
  }

  /** What an event that does not end the era does to its counts. */
  lemma EraCounts(c: Config, t0: int, p: seq<Event>, e: Event, n: nat)
    requires Run(c, t0, p) && EraStart(c, t0, p) == n > 0
    requires Apply(c, After(c, t0, p), e).state == After(c, t0, p).state
    requires e.Result? ==> e.ask < n - 1
    ensures EraStart(c, t0, p + [e]) == n
    ensures |LiveProbes(c, t0, p + [e])| == |LiveProbes(c, t0, p)| + (if Admits(c, After(c, t0, p), e) then 1 else 0)
    ensures StaleInEra(c, t0, p + [e]) == StaleInEra(c, t0, p) + (if e.Result? then 1 else 0)
  {
    SameEra(c, t0, p, e);
    AdmissionsStep(c, t0, p, e);
    EraLive(c, t0, p, e, n, Admissions(c, t0, p), Admissions(c, t0, p + [e]));
    EraStale(c, t0, p, e, n);
  }

  /** One more probe. */
  lemma ProbeJoins(c: Config, t0: int, log: seq<Event>, n: nat, live: nat, stale: nat)
    requires Era(c, t0, log, n, live, stale) && live - 1 - stale < c.maxConcurrentRequests
    ensures Era(c, t0, log + [Ask(ProbeTime(c, t0))], n, live + 1, stale)
  {
    var e := Ask(ProbeTime(c, t0));
    GoesOn(c, t0, log, stale, n, e);
    EraCounts(c, t0, log, e, EraStart(c, t0, log));
  }

  /** An older request completes without failing, which frees a slot. */
  lemma StaleCompletes(c: Config, t0: int, log: seq<Event>, n: nat, live: nat, stale: nat)
    requires Era(c, t0, log, n, live, stale) && stale < n && stale + 1 < Max(1, c.successThreshold)
    requires 0 < live - 1 - stale
    ensures Era(c, t0, log + [Result(stale, false, ProbeTime(c, t0))], n, live, stale + 1)
  {
    var e := Result(stale, false, ProbeTime(c, t0));
    GoesOn(c, t0, log, stale, n, e);
    EraCounts(c, t0, log, e, EraStart(c, t0, log));
  }

  /** A probe takes the slot so freed. */
  lemma StaleMakesRoom(c: Config, t0: int, log: seq<Event>, n: nat, live: nat, stale: nat) returns (log': seq<Event>)
    requires Era(c, t0, log, n, live, stale) && stale < n && stale + 1 < Max(1, c.successThreshold)
    requires 0 < live - 1 - stale <= c.maxConcurrentRequests
    ensures Era(c, t0, log', n, live + 1, stale + 1)
  {
    StaleCompletes(c, t0, log, n, live, stale);
    log' := log + [Result(stale, false, ProbeTime(c, t0))];
    ProbeJoins(c, t0, log', n, live, stale + 1);
    log' := log' + [Ask(ProbeTime(c, t0))];
  }

  /** `k` counted probes beside the uncounted first one. */
  lemma {:induction false} FillSlots(c: Config, t0: int, n: nat, k: nat) returns (log: seq<Event>)
    requires k <= Max(0, c.maxConcurrentRequests)
    ensures Era(c, t0, log, n, k + 1, 0)
  {
    if k == 0 {
      log := OpenWithProbe(c, t0, n);
    } else {
      log := FillSlots(c, t0, n, k - 1);
      ProbeJoins(c, t0, log, n, k, 0);
      log := log + [Ask(ProbeTime(c, t0))];
    }
  }

  /** The bound is reached with the slots in use, however many stale completions there are. */
  lemma {:induction false} SlotsInUse(c: Config, t0: int, n: nat, k: nat, stale: nat) returns (log: seq<Event>)
    requires k <= Max(0, c.maxConcurrentRequests) && stale <= n
    requires stale < Max(1, c.successThreshold) && (stale > 0 ==> k > 0)
    ensures Era(c, t0, log, n, k + 1 + stale, stale)
  {
    if stale == 0 {
      log := FillSlots(c, t0, n, k);
    } else {
      log := SlotsInUse(c, t0, n, k, stale - 1);
      log := StaleMakesRoom(c, t0, log, n, k + stale, stale - 1);
    }
  }

  /** The last stale completion empties the last slot. */
  lemma SlotsEmptied(c: Config, t0: int, n: nat, stale: nat) returns (log: seq<Event>)
    requires c.maxConcurrentRequests > 0 && 0 < stale <= n && stale < Max(1, c.successThreshold)
    ensures Era(c, t0, log, n, 1 + stale, stale)
  {
    log := SlotsInUse(c, t0, n, 1, stale - 1);
    StaleCompletes(c, t0, log, n, 1 + stale, stale - 1);
    log := log + [Result(stale - 1, false, ProbeTime(c, t0))];
  }

  /** The accounting is exact: for every configuration, every value `k` of the counter and every
      number of stale completions that does not close the breaker, a run reaches the bound. */
  lemma AccountingIsReached(c: Config, t0: int, n: nat, k: nat, stale: nat) returns (log: seq<Event>)
    requires k <= Max(0, c.maxConcurrentRequests) && stale <= n
    requires stale < Max(1, c.successThreshold) && (stale > 0 ==> c.maxConcurrentRequests > 0)
    ensures Era(c, t0, log, n, k + 1 + stale, stale)
  {
    if k == 0 && stale > 0 {
      log := SlotsEmptied(c, t0, n, stale);
    } else {
      log := SlotsInUse(c, t0, n, k, stale);
    }
  }

  /** No run exceeds the peak, and for every configuration some run reaches it. */
  lemma PeakIsExact(c: Config, t0: int, live: nat)
    ensures (exists log :: Run(c, t0, log) && After(c, t0, log).state == HalfOpen && |LiveProbes(c, t0, log)| >= live)
       <==> live <= Peak(c)
  {
    forall log | Run(c, t0, log) && After(c, t0, log).state == HalfOpen ensures |LiveProbes(c, t0, log)| <= Peak(c) {
      ProbesBounded(c, t0, log);
    }
    var k: nat := Max(0, c.maxConcurrentRequests);
    var stale: nat := if k == 0 then 0 else Max(1, c.successThreshold) - 1;
    var log := AccountingIsReached(c, t0, stale, k, stale);
    assert |LiveProbes(c, t0, log)| == Peak(c);
  }

  // ----- One late failure prolongs an outage -------------------------------------------------

  /** Nothing is admitted from position `i` on. */
  ghost predicate Shut(c: Config, t0: int, log: seq<Event>, i: nat) {
    forall k | i <= k < |log| :: !Admitted(c, t0, log, k)
  }

  lemma StaysShut(c: Config, t0: int, log: seq<Event>, first: nat, n: nat, i: nat, e: Event)
    requires Going(c, t0, log, first, n, e.at) && i <= |log| && Shut(c, t0, log, i)
    requires if e.Ask? then !Admits(c, After(c, t0, log), e) else e.ask == first < n
    ensures Shut(c, t0, log + [e], i) && Going(c, t0, log + [e], if e.Ask? then first else first + 1, n, e.at)
    ensures After(c, t0, log + [e]) == Apply(c, After(c, t0, log), e)
  {
    GoesOn(c, t0, log, first, n, e);
    AdmissionsStep(c, t0, log, e);
    forall k | i <= k < |log| ensures !Admitted(c, t0, log + [e], k) {
      PrefixAgrees(c, t0, log, e, k);
    }
  }

  lemma Later(c: Config, t0: int, log: seq<Event>, first: nat, n: nat, now: int, later: int)
    requires Going(c, t0, log, first, n, now) && now <= later
    ensures Going(c, t0, log, first, n, later)
  {
  }

  /** A full half-open breaker rejects a request. */
  lemma RejectOnce(c: Config, t0: int) returns (p: seq<Event>)
    requires c.recoveryTimeout > 0
    ensures var t, log := ProbeTime(c, t0), p + [Ask(ProbeTime(c, t0))];
      && Going(c, t0, log, 0, 1, t) && Shut(c, t0, log, |p|)
      && After(c, t0, log).state == HalfOpen && After(c, t0, log).lastStateChange == t
  {
    p := FillSlots(c, t0, 1, Max(0, c.maxConcurrentRequests));
    StaysShut(c, t0, p, 0, 1, |p|, Ask(ProbeTime(c, t0)));
  }

  /** A recovery timeout later it falls back to Open and rejects another one. */
  lemma RejectTwice(c: Config, t0: int) returns (log: seq<Event>, i: nat)
    requires c.recoveryTimeout > 0
    ensures var t := ProbeTime(c, t0) + c.recoveryTimeout;
      && |log| == i + 2 && Going(c, t0, log, 0, 1, t) && Shut(c, t0, log, i)
      && log[i] == Ask(ProbeTime(c, t0)) && log[i + 1] == Ask(t)
      && After(c, t0, log).state == Open && After(c, t0, log).lastFailureTime == t
  {
    var t := ProbeTime(c, t0);
    var p := RejectOnce(c, t0);
    i, log := |p|, p + [Ask(t)];
    Later(c, t0, log, 0, 1, t, t + c.recoveryTimeout);
    StaysShut(c, t0, log, 0, 1, i, Ask(t + c.recoveryTimeout));
    log := log + [Ask(t + c.recoveryTimeout)];
  }

  /** For every configuration: all slots hang, and one request from before the outage fails just
      after the breaker fell back to Open. Three requests a recovery timeout apart are all
      rejected, with that one failure between them. */
  lemma StragglerLocksOut(c: Config, t0: int) returns (log: seq<Event>, i: nat)
    requires c.recoveryTimeout > 0
    ensures |log| == i + 4 && Run(c, t0, log) && log[i + 2].Result? && log[i].Ask?
    ensures log[i + 1] == Ask(log[i].at + c.recoveryTimeout) && log[i + 3] == Ask(log[i + 1].at + c.recoveryTimeout)
    ensures forall k | i <= k < i + 4 :: !Admitted(c, t0, log, k)
  {
    log, i := RejectTwice(c, t0);
    var t := log[i + 1].at;
    Later(c, t0, log, 0, 1, t, t + 1);
    StaysShut(c, t0, log, 0, 1, i, Result(0, true, t + 1));
    log := log + [Result(0, true, t + 1)];
    Later(c, t0, log, 1, 1, t + 1, t + c.recoveryTimeout);
    StaysShut(c, t0, log, 1, 1, i, Ask(t + c.recoveryTimeout));
    log := log + [Ask(t + c.recoveryTimeout)];
  }
}
