/** Runs of one breaker under a fixed configuration: admissions and completions of
    unboundedly many requests, in the order their critical sections take place. */
module BreakerRuns {
  import opened Basics
  import opened Breaker
  import opened Errors

  /** `Ask` is a call of allowRequest. `Result` is a call of recordResult for the request
      that was admitted by the `Ask` at position `ask` of the log. */
  datatype Event = Ask(at: int) | Result(ask: nat, failed: bool, at: int)

  function Apply(c: Config, b: Counters, e: Event): Counters {
    match e
    case Ask(at) => Allow(c, b, at).0
    case Result(_, failed, at) => Record(c, b, failed, at)
  }

  function After(c: Config, t0: int, log: seq<Event>): Counters {
    if log == [] then Initial(t0)
    else Apply(c, After(c, t0, log[..|log| - 1]), log[|log| - 1])
  }

  /** The breaker just before event `i`. */
  function At(c: Config, t0: int, log: seq<Event>, i: nat): Counters
    requires i <= |log|
  {
    After(c, t0, log[..i])
  }

  predicate Admitted(c: Config, t0: int, log: seq<Event>, i: nat)
    requires i < |log|
  {
    log[i].Ask? && Allow(c, At(c, t0, log, i), log[i].at).1
  }

  predicate Completed(log: seq<Event>, ask: nat) {
    exists k | 0 <= k < |log| :: log[k].Result? && log[k].ask == ask
  }

  predicate Monotone(t0: int, log: seq<Event>) {
    && (forall i | 0 <= i < |log| :: t0 <= log[i].at)
    && (forall i, j | 0 <= i < j < |log| :: log[i].at <= log[j].at)
  }

  /** Each completion belongs to an earlier admitted request that had not completed. */
  predicate ResultsMatch(c: Config, t0: int, log: seq<Event>) {
    forall k | 0 <= k < |log| && log[k].Result? ::
      log[k].ask < k && Admitted(c, t0, log, log[k].ask) && !Completed(log[..k], log[k].ask)
  }

  ghost predicate Run(c: Config, t0: int, log: seq<Event>) {
    Monotone(t0, log) && ResultsMatch(c, t0, log)
  }

  lemma ResultsDistinct(c: Config, t0: int, log: seq<Event>, i: nat)
    requires Run(c, t0, log) && i < |log| && log[i].Result?
    ensures forall j | 0 <= j < i && log[j].Result? :: log[j].ask != log[i].ask
  {
    assert forall j | 0 <= j < i :: log[..i][j] == log[j];
  }

  predicate Enters(c: Config, t0: int, log: seq<Event>, i: nat, s: State)
    requires i < |log|
  {
    At(c, t0, log, i).state != s && At(c, t0, log, i + 1).state == s
  }

  lemma AtStep(c: Config, t0: int, log: seq<Event>, i: nat)
    requires i < |log|
    ensures At(c, t0, log, i + 1) == Apply(c, At(c, t0, log, i), log[i])
  {
    assert log[..i + 1][..i] == log[..i];
  }

  lemma PrefixAgrees(c: Config, t0: int, p: seq<Event>, e: Event, i: nat)
    requires i <= |p|
    ensures At(c, t0, p + [e], i) == At(c, t0, p, i)
    ensures i < |p| ==> Admitted(c, t0, p + [e], i) == Admitted(c, t0, p, i)
  {
    assert (p + [e])[..i] == p[..i];
  }

  lemma Whole(c: Config, t0: int, log: seq<Event>)
    ensures At(c, t0, log, |log|) == After(c, t0, log)
  {
    assert log[..|log|] == log;
  }

  // ----- Quarantine ---------------------------------------------------------------

  lemma {:induction false} QuarantineFrom(c: Config, t0: int, log: seq<Event>, t: int, k: nat, j: nat)
    requires Monotone(t0, log) && k <= j < |log| && Admitted(c, t0, log, j)
    requires At(c, t0, log, k).state == Open && At(c, t0, log, k).lastFailureTime >= t
    requires log[k].at >= t
    ensures log[j].at >= t + c.recoveryTimeout
    decreases j - k
  {
    AtStep(c, t0, log, k);
    if k < j && At(c, t0, log, k + 1).state == Open {
      QuarantineFrom(c, t0, log, t, k + 1, j);
    }
  }

  /** Once Open is entered, nothing is admitted for a full recovery timeout. */
  lemma Quarantine(c: Config, t0: int, log: seq<Event>, i: nat, j: nat)
    requires Monotone(t0, log) && i < j < |log|
    requires Enters(c, t0, log, i, Open) && Admitted(c, t0, log, j)
    ensures log[j].at >= log[i].at + c.recoveryTimeout
  {
    AtStep(c, t0, log, i);
    QuarantineFrom(c, t0, log, log[i].at, i + 1, j);
  }

  /** Between leaving Open-free territory at `i` and being Open at `j`, Open was entered. */
  lemma {:induction false} FindEntry(c: Config, t0: int, log: seq<Event>, i: nat, j: nat) returns (k: nat)
    requires i <= j <= |log|
    requires At(c, t0, log, i).state != Open && At(c, t0, log, j).state == Open
    ensures i <= k < j && Enters(c, t0, log, k, Open)
    decreases j - i
  {
    if At(c, t0, log, i + 1).state == Open {
      k := i;
    } else {
      k := FindEntry(c, t0, log, i + 1, j);
    }
  }

  /** Probing is rate limited: two entries to HalfOpen are a recovery timeout apart. */
  lemma HalfOpenSpacing(c: Config, t0: int, log: seq<Event>, i: nat, j: nat)
    requires Monotone(t0, log) && i < j < |log|
    requires Enters(c, t0, log, i, HalfOpen) && Enters(c, t0, log, j, HalfOpen)
    ensures log[j].at >= log[i].at + c.recoveryTimeout
  {
    AtStep(c, t0, log, j);
    var k := FindEntry(c, t0, log, i + 1, j);
    Quarantine(c, t0, log, k, j);
  }

  // ----- The breaker never locks out for good --------------------------------------

  predicate NoFailure(log: seq<Event>, i: nat, j: nat)
    requires i <= j <= |log|
  {
    forall k | i <= k < j :: log[k].Result? ==> !log[k].failed
  }

  /** Every failure recorded from `i` to `j` was recorded by `deadline`. */
  predicate QuietSince(log: seq<Event>, i: nat, j: nat, deadline: int)
    requires i <= j <= |log|
  {
    forall k | i <= k < j && log[k].Result? && log[k].failed :: log[k].at <= deadline
  }

  lemma {:induction false} StampsPast(c: Config, t0: int, log: seq<Event>, i: nat)
    requires Monotone(t0, log) && i < |log|
    ensures At(c, t0, log, i).lastStateChange <= log[i].at
    ensures At(c, t0, log, i).state == Open ==> At(c, t0, log, i).lastFailureTime <= log[i].at
  {
    if i == 0 {
    } else {
      AtStep(c, t0, log, i - 1);
      StampsPast(c, t0, log, i - 1);
    }
  }

  /** HalfOpen is only entered by an admission. */
  lemma {:induction false} ProbeWindowIsOld(c: Config, t0: int, log: seq<Event>, i: nat, j: nat, t: int)
    requires i <= j <= |log| && forall k | i <= k < j :: !Admitted(c, t0, log, k)
    requires At(c, t0, log, i).state == HalfOpen ==> At(c, t0, log, i).lastStateChange <= t
    ensures At(c, t0, log, j).state == HalfOpen ==> At(c, t0, log, j).lastStateChange <= t
    decreases j
  {
    if i == j {
    } else {
      ProbeWindowIsOld(c, t0, log, i, j - 1, t);
      assert !Admitted(c, t0, log, j - 1);
      AtStep(c, t0, log, j - 1);
    }
  }

  /** Without an admission Open stays Open, and only failures move its clock. */
  lemma {:induction false} StaysOpen(c: Config, t0: int, log: seq<Event>, i: nat, j: nat, deadline: int)
    requires Monotone(t0, log) && i <= j <= |log| && forall k | i <= k < j :: !Admitted(c, t0, log, k)
    requires At(c, t0, log, i).state == Open && At(c, t0, log, i).lastFailureTime <= deadline
    ensures At(c, t0, log, j).state == Open
    ensures At(c, t0, log, j).lastFailureTime <= deadline <==> QuietSince(log, i, j, deadline)
    decreases j
  {
    if i == j {
    } else {
      StaysOpen(c, t0, log, i, j - 1, deadline);
      assert !Admitted(c, t0, log, j - 1);
      AtStep(c, t0, log, j - 1);
    }
  }

  /** A breaker that rejects requests a recovery timeout apart is Open after the second. */
  lemma OpenAfterTwo(c: Config, t0: int, log: seq<Event>, i1: nat, i2: nat)
    requires Monotone(t0, log) && c.recoveryTimeout > 0 && i1 < i2 < |log| && log[i2].Ask?
    requires log[i2].at >= log[i1].at + c.recoveryTimeout
    requires forall k | i1 <= k <= i2 :: !Admitted(c, t0, log, k)
    ensures At(c, t0, log, i2 + 1).state == Open && At(c, t0, log, i2 + 1).lastFailureTime <= log[i2].at
  {
    StampsPast(c, t0, log, i1);
    ProbeWindowIsOld(c, t0, log, i1, i2, log[i1].at);
    StampsPast(c, t0, log, i2);
    assert !Admitted(c, t0, log, i2);
    AtStep(c, t0, log, i2);
  }

  /** If two spans of a recovery timeout pass without an admission, the request that ends them
      is admitted exactly when no failure was recorded in the last recovery timeout. */
  lemma LastOneIsAdmittedExactlyWhen(c: Config, t0: int, log: seq<Event>, i1: nat, i2: nat, i3: nat)
    requires Monotone(t0, log) && c.recoveryTimeout > 0
    requires i1 < i2 < i3 < |log| && log[i1].Ask? && log[i2].Ask? && log[i3].Ask?
    requires log[i2].at >= log[i1].at + c.recoveryTimeout
    requires log[i3].at >= log[i2].at + c.recoveryTimeout
    requires forall k | i1 <= k < i3 :: !Admitted(c, t0, log, k)
    ensures Admitted(c, t0, log, i3) <==> QuietSince(log, i2, i3, log[i3].at - c.recoveryTimeout)
  {
    OpenAfterTwo(c, t0, log, i1, i2);
    StaysOpen(c, t0, log, i2 + 1, i3, log[i3].at - c.recoveryTimeout);
  }

  /** Three requests a recovery timeout apart, no failure recorded in the last of these
      timeouts: some request of the span is admitted, even if no earlier probe ever completes. */
  lemma NeverLocksOut(c: Config, t0: int, log: seq<Event>, i1: nat, i2: nat, i3: nat)
    requires Monotone(t0, log) && c.recoveryTimeout > 0
    requires i1 < i2 < i3 < |log| && log[i1].Ask? && log[i2].Ask? && log[i3].Ask?
    requires log[i2].at >= log[i1].at + c.recoveryTimeout
    requires log[i3].at >= log[i2].at + c.recoveryTimeout
    requires QuietSince(log, i2, i3, log[i3].at - c.recoveryTimeout)
    ensures exists k | i1 <= k <= i3 :: Admitted(c, t0, log, k)
  {
    if forall k | i1 <= k < i3 :: !Admitted(c, t0, log, k) {
      LastOneIsAdmittedExactlyWhen(c, t0, log, i1, i2, i3);
    }
  }

  // ----- The counters mean what they say -------------------------------------------

  /** Position just after the event that entered the current state (0 initially). */
  function EraStart(c: Config, t0: int, log: seq<Event>): (n: nat)
    ensures n <= |log|
  {
    if log == [] then 0
    else
      var p := log[..|log| - 1];
      if After(c, t0, p).state != After(c, t0, log).state then |log| else EraStart(c, t0, p)
  }

  /** `n` begins the longest suffix of the run spent in the current state. */
  ghost predicate BeginsEra(c: Config, t0: int, log: seq<Event>, n: nat) {
    && n <= |log|
    && (forall k | n <= k <= |log| :: At(c, t0, log, k).state == After(c, t0, log).state)
    && (n > 0 ==> At(c, t0, log, n - 1).state != After(c, t0, log).state)
  }

  lemma EraGoesOn(c: Config, t0: int, p: seq<Event>, e: Event, n: nat)
    requires BeginsEra(c, t0, p, n)
    ensures BeginsEra(c, t0, p + [e], if After(c, t0, p).state != After(c, t0, p + [e]).state then |p| + 1 else n)
  {
    Whole(c, t0, p);
    Whole(c, t0, p + [e]);
    forall k | 0 <= k <= |p| ensures At(c, t0, p + [e], k) == At(c, t0, p, k) {
      PrefixAgrees(c, t0, p, e, k);
    }
  }

  /** The era is the longest suffix of the run spent in the current state. */
  lemma {:induction false} EraIsOneState(c: Config, t0: int, log: seq<Event>)
    ensures BeginsEra(c, t0, log, EraStart(c, t0, log))
  {
    if log == [] {
    } else {
      var p, e := log[..|log| - 1], log[|log| - 1];
      assert log == p + [e];
      EraIsOneState(c, t0, p);
      EraGoesOn(c, t0, p, e, EraStart(c, t0, p));
    }
  }

  function TrailingFailures(s: seq<Event>): nat {
    if s == [] then 0
    else
      var p, e := s[..|s| - 1], s[|s| - 1];
      match e
      case Ask(_) => TrailingFailures(p)
      case Result(_, failed, _) => if failed then TrailingFailures(p) + 1 else 0
  }

  function NonFailures(s: seq<Event>): nat {
    if s == [] then 0
    else NonFailures(s[..|s| - 1]) + (if s[|s| - 1].Result? && !s[|s| - 1].failed then 1 else 0)
  }

  predicate CountersExact(c: Config, b: Counters, era: seq<Event>) {
    && (b.state == Closed ==>
          b.failures == TrailingFailures(era) && b.failures < Max(1, c.failureThreshold))
    && (b.state == HalfOpen ==>
          && b.successes == NonFailures(era) && b.successes < Max(1, c.successThreshold)
          && NoFailure(era, 0, |era|))
  }

  /** In Closed, `failures` is the length of the current run of consecutive failures. In
      HalfOpen, `successes` counts the era's completions and none of them is a failure. */
  lemma {:induction false} CountersMeanWhatTheySay(c: Config, t0: int, log: seq<Event>)
    ensures CountersExact(c, After(c, t0, log), log[EraStart(c, t0, log)..])
  {
    if log == [] {
    } else {
      var p, e := log[..|log| - 1], log[|log| - 1];
      CountersMeanWhatTheySay(c, t0, p);
      var n := EraStart(c, t0, p);
      if EraStart(c, t0, log) == n {
        var era := log[n..];
        assert era[..|era| - 1] == p[n..] && era[|era| - 1] == e;
      } else {
        assert log[EraStart(c, t0, log)..] == [];
      }
    }
  }

  /** The era before event `j`, seen in the whole log. */
  lemma EraBefore(c: Config, t0: int, log: seq<Event>, j: nat) returns (i: nat)
    requires j <= |log|
    ensures i == EraStart(c, t0, log[..j]) <= j
    ensures forall k | i <= k <= j :: At(c, t0, log, k).state == At(c, t0, log, j).state
    ensures i > 0 ==> At(c, t0, log, i - 1).state != At(c, t0, log, j).state
    ensures log[i..j] == log[..j][i..]
  {
    i := EraStart(c, t0, log[..j]);
    EraIsOneState(c, t0, log[..j]);
    forall k | 0 <= k <= j ensures At(c, t0, log[..j], k) == At(c, t0, log, k) {
      assert log[..j][..k] == log[..k];
    }
  }

  lemma CountsExtend(s: seq<Event>, e: Event)
    requires NoFailure(s, 0, |s|) && e.Result? && !e.failed
    ensures NoFailure(s + [e], 0, |s| + 1) && NonFailures(s + [e]) == NonFailures(s) + 1
  {
    assert (s + [e])[..|s|] == s;
  }

  lemma OneMore(log: seq<Event>, i: nat, j: nat)
    requires i <= j < |log|
    ensures log[i..j + 1] == log[i..j] + [log[j]]
  {
  }

  /** Leaving HalfOpen for Closed takes exactly max(1, SuccessThreshold) completions, all
      non-failures, all recorded since HalfOpen was entered. */
  lemma ClosesOnlyAfterSuccesses(c: Config, t0: int, log: seq<Event>, j: nat) returns (i: nat)
    requires j < |log| && At(c, t0, log, j).state == HalfOpen && At(c, t0, log, j + 1).state == Closed
    ensures 0 < i <= j && Enters(c, t0, log, i - 1, HalfOpen)
    ensures forall k | i <= k <= j :: At(c, t0, log, k).state == HalfOpen
    ensures NoFailure(log[i..j + 1], 0, j + 1 - i)
    ensures NonFailures(log[i..j + 1]) == Max(1, c.successThreshold)
  {
    i := EraBefore(c, t0, log, j);
    CountersMeanWhatTheySay(c, t0, log[..j]);
    AtStep(c, t0, log, j);
    assert At(c, t0, log, 0).state == Closed;
    OneMore(log, i, j);
    CountsExtend(log[i..j], log[j]);
  }

  // ----- What failures do -----------------------------------------------------------------

  /** Successes and client faults never move a breaker away from Closed. */
  lemma {:induction false} NoFailureStaysClosed(c: Config, t0: int, log: seq<Event>)
    requires NoFailure(log, 0, |log|)
    ensures After(c, t0, log).state == Closed && After(c, t0, log).failures == 0
  {
    if log == [] {
    } else {
      NoFailureStaysClosed(c, t0, log[..|log| - 1]);
    }
  }

  /** What one Execute adds to a run: its admission and, if it is admitted, one result. */
  function Executed(c: Config, t0: int, log: seq<Event>, start: int, end: int, failed: bool): seq<Event> {
    var asked := log + [Ask(start)];
    if Admitted(c, t0, asked, |log|) then asked + [Result(|log|, failed, end)] else asked
  }

  /** An uninterrupted Execute of an enabled breaker goes on with the run by just that, a failure
      if its function panicked or returned an error that counts. */
  lemma ExecuteIsRun(c: Config, t0: int, log: seq<Event>, start: int, end: int, o: Outcome)
    requires Run(c, t0, log) && c.enabled && t0 <= start <= end && forall i | 0 <= i < |log| :: log[i].at <= start
    ensures var log' := Executed(c, t0, log, start, end, o.Panicked? || IsFailure(o.err));
      Run(c, t0, log') && After(c, t0, log') == ExecuteSpec(c, After(c, t0, log), start, end, o)
  {
    var failed := o.Panicked? || IsFailure(o.err);
    var asked, result := log + [Ask(start)], Result(|log|, failed, end);
    AfterStep(c, t0, log, Ask(start));
    AdmissionsStep(c, t0, log, Ask(start));
    RunExtends(c, t0, log, Ask(start));
    if Admitted(c, t0, asked, |log|) {
      NotCompletedYet(c, t0, asked);
      AfterStep(c, t0, asked, result);
      RunExtends(c, t0, asked, result);
    }
  }

  /** The last request has no result yet. */
  lemma NotCompletedYet(c: Config, t0: int, log: seq<Event>)
    requires Run(c, t0, log) && log != [] && log[|log| - 1].Ask?
    ensures !Completed(log, |log| - 1)
  {
  }

  /** Executes one after another, each an outcome with its start and end. */
  function ExecuteAll(c: Config, b: Counters, calls: seq<(Outcome, int, int)>): Counters {
    if calls == [] then b
    else
      var (o, start, end) := calls[|calls| - 1];
      ExecuteSpec(c, ExecuteAll(c, b, calls[..|calls| - 1]), start, end, o)
  }

  /** Calls that all end well or by the caller's fault leave an enabled breaker Closed. */
  lemma {:induction false} HarmlessCallsKeepClosed(c: Config, t0: int, calls: seq<(Outcome, int, int)>)
    requires c.enabled && forall i | 0 <= i < |calls| :: Harmless(calls[i].0)
    ensures var b := ExecuteAll(c, Initial(t0), calls); b.state == Closed && b.failures == 0
  {
    if calls == [] {
    } else {
      HarmlessCallsKeepClosed(c, t0, calls[..|calls| - 1]);
    }
  }

  /** Calls that all panic open it at the threshold-th, and not before. */
  lemma {:induction false} PanicsOpenAtThreshold(c: Config, t0: int, calls: seq<(Outcome, int, int)>)
    requires c.enabled && (forall i | 0 <= i < |calls| :: calls[i].0.Panicked?) && |calls| <= Max(1, c.failureThreshold)
    ensures var b := ExecuteAll(c, Initial(t0), calls);
      if |calls| == Max(1, c.failureThreshold) then b.state == Open && b.lastFailureTime == calls[|calls| - 1].2
      else b.state == Closed && b.failures == |calls|
  {
    if calls == [] {
    } else {
      PanicsOpenAtThreshold(c, t0, calls[..|calls| - 1]);
    }
  }

  // ----- Half-open admission accounting ---------------------------------------------

  /** Which events of the log admitted a request. */
  function Admissions(c: Config, t0: int, log: seq<Event>): (r: seq<bool>)
    ensures |r| == |log|
  {
    seq(|log|, i requires 0 <= i < |log| => Admitted(c, t0, log, i))
  }

  /** Requests admitted at or after position `first` that have not completed. */
  ghost function Live(adm: seq<bool>, log: seq<Event>, first: int): set<nat>
    requires |adm| == |log|
  {
    set i | first <= i < |log| && 0 <= i && adm[i] && !Completed(log, i)
  }

  /** Completions in `s` of requests admitted before position `first`. */
  function Stale(s: seq<Event>, first: int): nat {
    if s == [] then 0
    else Stale(s[..|s| - 1], first) + (if s[|s| - 1].Result? && s[|s| - 1].ask < first then 1 else 0)
  }

  /** Requests admitted by the current half-open era (its first probe is the event that
      entered it) that have not completed. */
  ghost function LiveProbes(c: Config, t0: int, log: seq<Event>): set<nat> {
    Live(Admissions(c, t0, log), log, EraStart(c, t0, log) - 1)
  }

  /** Completions recorded in the current era of requests admitted before it. */
  function StaleInEra(c: Config, t0: int, log: seq<Event>): nat {
    Stale(log[EraStart(c, t0, log)..], EraStart(c, t0, log) - 1)
  }

  predicate Admits(c: Config, b: Counters, e: Event) {
    e.Ask? && Allow(c, b, e.at).1
  }

  lemma AdmissionsStep(c: Config, t0: int, p: seq<Event>, e: Event)
    ensures Admissions(c, t0, p + [e]) == Admissions(c, t0, p) + [Admits(c, After(c, t0, p), e)]
    ensures Admitted(c, t0, p + [e], |p|) == Admits(c, After(c, t0, p), e)
  {
    forall i | 0 <= i < |p| ensures Admitted(c, t0, p + [e], i) == Admitted(c, t0, p, i) {
      PrefixAgrees(c, t0, p, e, i);
    }
    assert (p + [e])[..|p|] == p;
  }

  lemma CompletedStep(p: seq<Event>, e: Event, i: nat)
    ensures Completed(p + [e], i) <==> Completed(p, i) || (e.Result? && e.ask == i)
  {
    var log := p + [e];
    if Completed(p, i) {
      var k :| 0 <= k < |p| && p[k].Result? && p[k].ask == i;
      assert log[k] == p[k];
    }
    if e.Result? && e.ask == i {
      assert log[|p|] == e;
    }
  }

  lemma RunPrefix(c: Config, t0: int, p: seq<Event>, e: Event)
    requires Run(c, t0, p + [e])
    ensures Run(c, t0, p)
    ensures e.Result? ==> e.ask < |p| && Admitted(c, t0, p, e.ask) && !Completed(p, e.ask)
  {
    var log := p + [e];
    forall k | 0 <= k < |p| ensures log[k] == p[k] && log[..k] == p[..k] {
    }
    forall k | 0 <= k < |log| && log[k].Result?
      ensures log[k].ask < k && Admitted(c, t0, p, log[k].ask) && !Completed(log[..k], log[k].ask)
    {
      PrefixAgrees(c, t0, p, e, log[k].ask);
    }
    assert log[..|p|] == p && log[|p|] == e;
  }

  /** A run goes on with any later admission attempt, or with the completion of any admitted
      request that has not completed. */
  lemma RunExtends(c: Config, t0: int, log: seq<Event>, e: Event)
    requires Run(c, t0, log) && t0 <= e.at
    requires forall i | 0 <= i < |log| :: log[i].at <= e.at
    requires e.Result? ==> e.ask < |log| && Admitted(c, t0, log, e.ask) && !Completed(log, e.ask)
    ensures Run(c, t0, log + [e])
  {
    var log' := log + [e];
    forall n | 0 <= n < |log'| && log'[n].Result?
      ensures log'[n].ask < n && Admitted(c, t0, log', log'[n].ask) && !Completed(log'[..n], log'[n].ask)
    {
      PrefixAgrees(c, t0, log, e, log'[n].ask);
      assert log'[..n] == log[..n];
      assert log[..|log|] == log;
    }
  }

  /** The log and its admissions, with nothing completed before it was admitted. */
  ghost predicate WellLogged(adm: seq<bool>, log: seq<Event>) {
    |adm| == |log| && forall k | 0 <= k < |log| && log[k].Result? :: log[k].ask < k
  }

  /** Every event changes the live requests by at most itself. */
  lemma LiveStep(adm: seq<bool>, p: seq<Event>, a: bool, e: Event, first: int)
    requires WellLogged(adm, p) && first <= |p|
    requires e.Result? ==> e.ask < |p| && !a
    ensures Live(adm + [a], p + [e], first)
         == Live(adm, p, first) + (if a then {|p|} else {}) - (if e.Result? then {e.ask} else {})
  {
    forall i: nat | i <= |p| ensures Completed(p + [e], i) <==> Completed(p, i) || (e.Result? && e.ask == i) {
      CompletedStep(p, e, i);
    }
  }

  /** What one event may do to the number of live requests admitted from `first` on. */
  function LiveChange(e: Event, admitted: bool, first: int): int {
    if e.Ask? then (if admitted then 1 else 0) else if e.ask < first then 0 else -1
  }

  lemma CountChange(live: set<nat>, live': set<nat>, e: Event, admitted: bool, n: nat, first: int)
    requires live' == live + (if admitted then {n} else {}) - (if e.Result? then {e.ask} else {})
    requires admitted ==> e.Ask?
    requires e.Result? ==> (e.ask in live <==> e.ask >= first)
    ensures |live'| <= |live| + LiveChange(e, admitted, first)
  {
    if e.Ask? {
      assert live' == if admitted then live + {n} else live;
    } else {
      assert live' == live - {e.ask};
    }
  }

  predicate Accounted(c: Config, b: Counters, live: nat, stale: nat) {
    && 0 <= b.concurrentRequests <= Max(0, c.maxConcurrentRequests)
    && live <= b.concurrentRequests + 1 + stale
    && (c.maxConcurrentRequests <= 0 ==> live <= 1)
  }

  /** The counter drops on every completion, the live probes only on their own. */
  lemma CounterKeepsUp(c: Config, b: Counters, e: Event, first: int, live: nat, live': nat, stale: nat)
    requires b.state == HalfOpen && Apply(c, b, e).state == HalfOpen
    requires Accounted(c, b, live, stale) && live' <= live + LiveChange(e, Admits(c, b, e), first)
    ensures Accounted(c, Apply(c, b, e), live', stale + (if e.Result? && e.ask < first then 1 else 0))
  {
  }

  lemma StaleStep(p: seq<Event>, e: Event, n: nat, first: int)
    requires n <= |p|
    ensures Stale((p + [e])[n..], first) == Stale(p[n..], first) + (if e.Result? && e.ask < first then 1 else 0)
  {
    var era := (p + [e])[n..];
    assert era[..|era| - 1] == p[n..] && era[|era| - 1] == e;
  }

  lemma LiveGrowth(adm: seq<bool>, p: seq<Event>, a: bool, e: Event, first: int)
    requires WellLogged(adm, p) && first <= |p| && (a ==> e.Ask?)
    requires e.Result? ==> e.ask < |p| && adm[e.ask] && !Completed(p, e.ask)
    ensures |Live(adm + [a], p + [e], first)| <= |Live(adm, p, first)| + LiveChange(e, a, first)
  {
    LiveStep(adm, p, a, e, first);
    CountChange(Live(adm, p, first), Live(adm + [a], p + [e], first), e, a, |p|, first);
  }

  /** The accounting survives any event that does not end the half-open era begun at `n`. */
  lemma EraStep(c: Config, b: Counters, adm: seq<bool>, p: seq<Event>, e: Event, n: nat)
    requires WellLogged(adm, p) && n <= |p| && b.state == HalfOpen && Apply(c, b, e).state == HalfOpen
    requires e.Result? ==> e.ask < |p| && adm[e.ask] && !Completed(p, e.ask)
    requires Accounted(c, b, |Live(adm, p, n - 1)|, Stale(p[n..], n - 1))
    ensures Accounted(c, Apply(c, b, e), |Live(adm + [Admits(c, b, e)], p + [e], n - 1)|, Stale((p + [e])[n..], n - 1))
  {
    var a := Admits(c, b, e);
    LiveGrowth(adm, p, a, e, n - 1);
    StaleStep(p, e, n, n - 1);
    CounterKeepsUp(c, b, e, n - 1, |Live(adm, p, n - 1)|, |Live(adm + [a], p + [e], n - 1)|, Stale(p[n..], n - 1));
  }

  lemma AfterStep(c: Config, t0: int, p: seq<Event>, e: Event)
    ensures After(c, t0, p + [e]) == Apply(c, After(c, t0, p), e)
    ensures EraStart(c, t0, p + [e])
         == if After(c, t0, p).state != After(c, t0, p + [e]).state then |p| + 1 else EraStart(c, t0, p)
  {
    assert (p + [e])[..|p|] == p;
  }

  /** The event that enters HalfOpen is the only live probe, and it is not counted. */
  lemma FirstProbe(c: Config, t0: int, p: seq<Event>, e: Event)
    requires After(c, t0, p).state != HalfOpen && After(c, t0, p + [e]).state == HalfOpen
    ensures Accounted(c, After(c, t0, p + [e]), |LiveProbes(c, t0, p + [e])|, StaleInEra(c, t0, p + [e]))
  {
    AfterStep(c, t0, p, e);
    SubsetSize(LiveProbes(c, t0, p + [e]), {|p|});
  }

  lemma LaterProbe(c: Config, t0: int, p: seq<Event>, e: Event)
    requires Run(c, t0, p + [e]) && After(c, t0, p).state == HalfOpen && After(c, t0, p + [e]).state == HalfOpen
    requires Accounted(c, After(c, t0, p), |LiveProbes(c, t0, p)|, StaleInEra(c, t0, p))
    ensures Accounted(c, After(c, t0, p + [e]), |LiveProbes(c, t0, p + [e])|, StaleInEra(c, t0, p + [e]))
  {
    AfterStep(c, t0, p, e);
    RunPrefix(c, t0, p, e);
    AdmissionsStep(c, t0, p, e);
    EraStep(c, After(c, t0, p), Admissions(c, t0, p), p, e, EraStart(c, t0, p));
  }

  /** In HalfOpen the counter stays within its limit, and the probes of the era still in
      flight exceed it by at most the uncounted first probe and one for each completion of
      an older request that was mistaken for a probe's. */
  lemma {:induction false} HalfOpenAccounting(c: Config, t0: int, log: seq<Event>)
    requires Run(c, t0, log) && After(c, t0, log).state == HalfOpen
    ensures Accounted(c, After(c, t0, log), |LiveProbes(c, t0, log)|, StaleInEra(c, t0, log))
    ensures |LiveProbes(c, t0, log)| <= Max(0, c.maxConcurrentRequests) + 1 + StaleInEra(c, t0, log)
  {
    var p, e := log[..|log| - 1], log[|log| - 1];
    assert log == p + [e];
    if After(c, t0, p).state == HalfOpen {
      RunPrefix(c, t0, p, e);
      HalfOpenAccounting(c, t0, p);
      LaterProbe(c, t0, p, e);
    } else {
      FirstProbe(c, t0, p, e);
    }
  }

  /** With no failure recorded, completions of older requests are among the successes. */
  lemma {:induction false} StaleAreSuccesses(s: seq<Event>, first: int)
    requires NoFailure(s, 0, |s|)
    ensures Stale(s, first) <= NonFailures(s)
  {
    if s == [] {
    } else {
      StaleAreSuccesses(s[..|s| - 1], first);
    }
  }

  /** The most probes of one era that can ever be in flight. */
  function Peak(c: Config): int {
    if c.maxConcurrentRequests <= 0 then 1 else c.maxConcurrentRequests + Max(1, c.successThreshold)
  }

  /** In terms of the configuration alone: completions mistaken for a probe's count as
      successes, so too many of them close the breaker. */
  lemma ProbesBounded(c: Config, t0: int, log: seq<Event>)
    requires Run(c, t0, log) && After(c, t0, log).state == HalfOpen
    ensures |LiveProbes(c, t0, log)| <= Peak(c)
  {
    HalfOpenAccounting(c, t0, log);
    CountersMeanWhatTheySay(c, t0, log);
    StaleAreSuccesses(log[EraStart(c, t0, log)..], EraStart(c, t0, log) - 1);
  }
}
