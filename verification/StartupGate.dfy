/** The startup gate: a dispatcher hands the required services to a few workers over an
    unbuffered channel; failures go to a bounded channel and cancel the rest. */
module StartupGate {
  import opened Basics

  datatype Service = Service(name: string, required: bool)

  function Required(services: seq<Service>): seq<Service> {
    if services == [] then []
    else Required(services[..|services| - 1])
         + (if services[|services| - 1].required then [services[|services| - 1]] else [])
  }

  /** Collects the required services. */
  method SelectRequired(services: seq<Service>) returns (required: seq<Service>)
    ensures required == Required(services)
  {
    required := [];
    for i := 0 to |services|
      invariant required == Required(services[..i])
    {
      assert services[..i + 1][..i] == services[..i];
      if services[i].required {
        required := required + [services[i]];
      }
    }
    assert services[..|services|] == services;
  }

  /** How often `x` occurs. */
  function Times(s: seq<Service>, x: Service): nat {
    if s == [] then 0 else Times(s[..|s| - 1], x) + if s[|s| - 1] == x then 1 else 0
  }

  lemma TimesSnoc(s: seq<Service>, y: Service, x: Service)
    ensures Times(s + [y], x) == Times(s, x) + if y == x then 1 else 0
  {
    assert (s + [y])[..|s|] == s;
  }

  /** A required service is kept as often as it is listed, any other not at all. */
  lemma {:induction false} RequiredKeepsExactly(services: seq<Service>, x: Service)
    ensures Times(Required(services), x) == if x.required then Times(services, x) else 0
  {
    if services == [] {
    } else {
      var before, last := services[..|services| - 1], services[|services| - 1];
      RequiredKeepsExactly(before, x);
      TimesSnoc(Required(before), last, x);
      assert Required(before) + [] == Required(before);
    }
  }

  /** The order is that of the list: what comes first is collected first. */
  lemma {:induction false} RequiredInOrder(a: seq<Service>, b: seq<Service>)
    ensures Required(a + b) == Required(a) + Required(b)
  {
    if b == [] {
      assert a + b == a;
    } else {
      var n := |a + b| - 1;
      assert (a + b)[..n] == a + b[..|b| - 1] && (a + b)[n] == b[|b| - 1];
      RequiredInOrder(a, b[..|b| - 1]);
    }
  }

  const MAX_CHECKS: nat := 8

  function Limit(n: nat): nat { if n < MAX_CHECKS then n else MAX_CHECKS }

  /** A worker: waiting on the job channel, checking job `j`, about to send j's error, about
      to cancel, or gone. */
  datatype Worker = Idle | Checking(job: nat) | Sending(job: nat) | Cancelling | Exited

  /** The dispatcher: in its loop, past close(jobs), or returned: None is nil, Some(j) the
      error of job j, and `Interrupted` the caller's own cancellation. */
  datatype Answer = Ok | Failed(job: nat) | Interrupted
  datatype Dispatcher = Looping | Closed | Returned(answer: Answer)

  /** `next` jobs have been handed over. `errs` is the buffered error channel, `cancelled` the
      derived context, `parentDone` the caller's. `passed` and `failed` are finished checks. */
  datatype Gate = Gate(
    dispatcher: Dispatcher, next: nat, workers: seq<Worker>, errs: seq<nat>,
    cancelled: bool, parentDone: bool, passed: set<nat>, failed: set<nat>)

  function Start(n: nat, parentDone: bool): Gate {
    Gate(Looping, 0, seq(Limit(n), i => Idle), [], parentDone, parentDone, {}, {})
  }

  datatype Step =
    | Dispatch(w: nat) | Break | Close | Collect
    | Finish(w: nat, ok: bool) | Send(w: nat) | Cancel(w: nat) | Exit(w: nat)
    | CallerGivesUp

  /** When a step can be taken. A send on the error channel blocks when it is full. */
  predicate Enabled(n: nat, g: Gate, s: Step) {
    match s
    case Dispatch(w) => g.dispatcher == Looping && g.next < n && w < |g.workers| && g.workers[w] == Idle
    case Break => g.dispatcher == Looping && g.next < n && g.cancelled
    case Close => g.dispatcher == Looping && g.next == n
    case Collect => g.dispatcher == Closed && forall w | 0 <= w < |g.workers| :: g.workers[w] == Exited
    case Finish(w, _) => w < |g.workers| && g.workers[w].Checking?
    case Send(w) => w < |g.workers| && g.workers[w].Sending? && |g.errs| < n
    case Cancel(w) => w < |g.workers| && g.workers[w] == Cancelling
    case Exit(w) => w < |g.workers| && g.workers[w] == Idle && g.dispatcher != Looping
    case CallerGivesUp => !g.parentDone && !g.dispatcher.Returned?
  }

  function Answered(g: Gate): Answer {
    if |g.errs| > 0 then Failed(g.errs[0]) else if g.parentDone then Interrupted else Ok
  }

  function Take(n: nat, g: Gate, s: Step): Gate
    requires Enabled(n, g, s)
  {
    match s
    case Dispatch(w) => g.(next := g.next + 1, workers := g.workers[w := Checking(g.next)])
    case Break => g.(dispatcher := Closed)
    case Close => g.(dispatcher := Closed)
    case Collect => g.(dispatcher := Returned(Answered(g)))
    case Finish(w, ok) =>
      var j := g.workers[w].job;
      if ok then g.(workers := g.workers[w := Idle], passed := g.passed + {j})
      else g.(workers := g.workers[w := Sending(j)], failed := g.failed + {j})
    case Send(w) => g.(workers := g.workers[w := Cancelling], errs := g.errs + [g.workers[w].job])
    case Cancel(w) => g.(workers := g.workers[w := Idle], cancelled := true)
    case Exit(w) => g.(workers := g.workers[w := Exited])
    case CallerGivesUp => g.(parentDone := true, cancelled := true)
  }

  /** A run: the gate starts for `n` required services and takes enabled steps. (With no
      required service the gate returns nil at once and starts nothing.) */
  ghost predicate Run(n: nat, gates: seq<Gate>, steps: seq<Step>) {
    && n > 0 && |gates| == |steps| + 1
    && (gates[0] == Start(n, false) || gates[0] == Start(n, true))
    && forall i | 0 <= i < |steps| :: Enabled(n, gates[i], steps[i]) && gates[i + 1] == Take(n, gates[i], steps[i])
  }

  // ----- What every run keeps -----------------------------------------------------------

  /** Some worker holds `x`. */
  predicate Has(ws: seq<Worker>, x: Worker) { exists w | 0 <= w < |ws| :: ws[w] == x }

  /** No two workers are in the same busy place. */
  predicate NoTwins(ws: seq<Worker>) {
    forall v, w | 0 <= v < w < |ws| && ws[v] == ws[w] :: ws[v] == Idle || ws[v] == Cancelling || ws[v] == Exited
  }

  /** Every dispatched job is being checked, or passed, or failed: exactly one of the three. */
  ghost predicate JobsAccounted(g: Gate) {
    && (forall j: nat | j < g.next :: j in g.passed || j in g.failed || Has(g.workers, Checking(j)))
    && (forall j | j in g.passed :: j < g.next && j !in g.failed)
    && (forall j | j in g.failed :: j < g.next)
    && (forall j: nat | Has(g.workers, Checking(j)) :: j < g.next && j !in g.passed && j !in g.failed)
  }

  /** The error of every failed job is about to be sent or was sent: exactly one of the two. */
  ghost predicate ErrorsAccounted(g: Gate) {
    && (forall j | j in g.failed :: j in g.errs || Has(g.workers, Sending(j)))
    && (forall j | j in g.errs :: j in g.failed)
    && (forall j: nat | Has(g.workers, Sending(j)) :: j in g.failed && j !in g.errs)
    && Distinct(g.errs)
  }

  ghost predicate Inv(n: nat, g: Gate) {
    && g.next <= n && |g.workers| == Limit(n)
    && NoTwins(g.workers) && JobsAccounted(g) && ErrorsAccounted(g)
    && (g.cancelled ==> g.parentDone || |g.errs| > 0)
    && (g.parentDone ==> g.cancelled)
    && (Has(g.workers, Cancelling) ==> |g.errs| > 0)
    && (g.dispatcher != Looping ==> g.next == n || g.cancelled)
    && (Has(g.workers, Exited) ==> g.dispatcher != Looping)
    && (g.dispatcher.Returned? ==>
          && g.dispatcher.answer == Answered(g)
          && forall w | 0 <= w < |g.workers| :: g.workers[w] == Exited)
  }

  /** One worker moves from `x` to `y`: what is held afterwards. */
  lemma Moved(ws: seq<Worker>, w: nat, y: Worker, z: Worker)
    requires w < |ws|
    ensures Has(ws[w := y], z) ==> z == y || Has(ws, z)
    ensures Has(ws, z) && z != ws[w] ==> Has(ws[w := y], z)
    ensures Has(ws[w := y], y)
    ensures NoTwins(ws) && (ws[w].Checking? || ws[w].Sending?) && z == ws[w] && z != y ==> !Has(ws[w := y], z)
  {
    assert ws[w := y][w] == y;
    if Has(ws, z) && z != ws[w] {
      var v :| 0 <= v < |ws| && ws[v] == z;
      assert ws[w := y][v] == z;
    }
  }

  lemma WorkerMoved(ws: seq<Worker>, w: nat, y: Worker)
    requires w < |ws| && NoTwins(ws) && (Has(ws, y) ==> y == Idle || y == Cancelling || y == Exited)
    ensures NoTwins(ws[w := y])
    ensures forall z :: Has(ws[w := y], z) ==> z == y || Has(ws, z)
    ensures forall z :: Has(ws, z) && z != ws[w] ==> Has(ws[w := y], z)
    ensures Has(ws[w := y], y)
    ensures ws[w].Checking? || ws[w].Sending? ==> ws[w] == y || !Has(ws[w := y], ws[w])
  {
    forall z
      ensures Has(ws[w := y], z) ==> z == y || Has(ws, z)
      ensures Has(ws, z) && z != ws[w] ==> Has(ws[w := y], z)
    {
      Moved(ws, w, y, z);
    }
    Moved(ws, w, y, ws[w]);
    assert Has(ws, ws[w]);
  }

  lemma DispatchKeepsInv(n: nat, g: Gate, w: nat)
    requires Inv(n, g) && Enabled(n, g, Dispatch(w))
    ensures Inv(n, Take(n, g, Dispatch(w)))
  {
    WorkerMoved(g.workers, w, Checking(g.next));
  }

  lemma FinishKeepsInv(n: nat, g: Gate, w: nat, ok: bool)
    requires Inv(n, g) && Enabled(n, g, Finish(w, ok))
    ensures Inv(n, Take(n, g, Finish(w, ok)))
  {
    assert Has(g.workers, g.workers[w]);
    WorkerMoved(g.workers, w, if ok then Idle else Sending(g.workers[w].job));
  }

  lemma SendKeepsInv(n: nat, g: Gate, w: nat)
    requires Inv(n, g) && Enabled(n, g, Send(w))
    ensures Inv(n, Take(n, g, Send(w)))
  {
    assert Has(g.workers, g.workers[w]);
    WorkerMoved(g.workers, w, Cancelling);
  }

  lemma CancelKeepsInv(n: nat, g: Gate, w: nat)
    requires Inv(n, g) && Enabled(n, g, Cancel(w))
    ensures Inv(n, Take(n, g, Cancel(w)))
  {
    assert Has(g.workers, g.workers[w]);
    WorkerMoved(g.workers, w, Idle);
  }

  lemma ExitKeepsInv(n: nat, g: Gate, w: nat)
    requires Inv(n, g) && Enabled(n, g, Exit(w))
    ensures Inv(n, Take(n, g, Exit(w)))
  {
    WorkerMoved(g.workers, w, Exited);
  }

  lemma StepKeepsInv(n: nat, g: Gate, s: Step)
    requires Inv(n, g) && Enabled(n, g, s)
    ensures Inv(n, Take(n, g, s))
  {
    match s
    case Dispatch(w) => DispatchKeepsInv(n, g, w);
    case Finish(w, ok) => FinishKeepsInv(n, g, w, ok);
    case Send(w) => SendKeepsInv(n, g, w);
    case Cancel(w) => CancelKeepsInv(n, g, w);
    case Exit(w) => ExitKeepsInv(n, g, w);
    case _ =>
  }

  lemma {:induction false} InvAlways(n: nat, gates: seq<Gate>, steps: seq<Step>, i: nat)
    requires Run(n, gates, steps) && i < |gates|
    ensures Inv(n, gates[i])
  {
    if i == 0 {
    } else {
      InvAlways(n, gates, steps, i - 1);
      StepKeepsInv(n, gates[i - 1], steps[i - 1]);
    }
  }

  // ----- Soundness ----------------------------------------------------------------------

  /** The gate returns nil exactly when every required service was dispatched and its check
      succeeded and the caller did not cancel; an error it returns is a failed check's. */
  lemma GateSound(n: nat, gates: seq<Gate>, steps: seq<Step>, i: nat)
    requires Run(n, gates, steps) && i < |gates| && gates[i].dispatcher.Returned?
    ensures var g := gates[i];
      && (g.dispatcher.answer == Ok <==> !g.parentDone && forall j: nat | j < n :: j in g.passed)
      && (g.dispatcher.answer.Failed? ==> g.dispatcher.answer.job in g.failed)
      && (g.dispatcher.answer == Interrupted ==> g.parentDone && g.failed == {})
  {
    InvAlways(n, gates, steps, i);
    var g := gates[i];
    if g.failed != {} {
      var j :| j in g.failed;
      assert j in g.errs;
    }
    if |g.errs| > 0 {
      assert g.errs[0] in g.errs;
    }
  }

  lemma {:induction false} RequiredMembers(services: seq<Service>)
    ensures forall s :: s in Required(services) <==> s in services && s.required
  {
    if services == [] {
    } else {
      RequiredMembers(services[..|services| - 1]);
      assert services == services[..|services| - 1] + [services[|services| - 1]];
    }
  }

  /** The same in terms of the configured services, whose required ones are the jobs: nil means
      that every required service has been checked and found available, an error that a check
      of some required service has failed, or that the caller gave up. */
  lemma ServicesAreChecked(services: seq<Service>, gates: seq<Gate>, steps: seq<Step>, i: nat)
    requires Run(|Required(services)|, gates, steps) && i < |gates| && gates[i].dispatcher.Returned?
    ensures var jobs, g := Required(services), gates[i];
      && (g.dispatcher.answer == Ok <==> !g.parentDone && forall j: nat | j < |jobs| :: j in g.passed)
      && (g.dispatcher.answer == Ok ==>
            forall s | s in services && s.required :: exists j :: 0 <= j < |jobs| && jobs[j] == s && j in g.passed)
      && (match g.dispatcher.answer
          case Ok => true
          case Interrupted => g.parentDone
          case Failed(j) => j < |jobs| && jobs[j] in services && jobs[j].required && j in g.failed)
  {
    var jobs := Required(services);
    RequiredMembers(services);
    GateSound(|jobs|, gates, steps, i);
    InvAlways(|jobs|, gates, steps, i);
    forall s | s in jobs ensures exists j :: 0 <= j < |jobs| && jobs[j] == s {
    }
  }

  /** The first step of the run that sends an error sends that of job `j`. */
  predicate FirstSent(gates: seq<Gate>, steps: seq<Step>, k: nat, j: nat)
    requires k < |steps| < |gates|
  {
    && steps[k].Send? && steps[k].w < |gates[k].workers| && gates[k].workers[steps[k].w] == Sending(j)
    && forall m | 0 <= m < k :: !steps[m].Send?
  }

  lemma OnlySendsAppend(n: nat, g: Gate, s: Step)
    requires Enabled(n, g, s)
    ensures Take(n, g, s).errs == if s.Send? then g.errs + [g.workers[s.w].job] else g.errs
  {
  }

  lemma {:induction false} FirstErrorStays(n: nat, gates: seq<Gate>, steps: seq<Step>, i: nat) returns (k: nat)
    requires Run(n, gates, steps) && i < |gates|
    ensures gates[i].errs == [] ==> forall m | 0 <= m < i :: !steps[m].Send?
    ensures gates[i].errs != [] ==> k < i && FirstSent(gates, steps, k, gates[i].errs[0])
  {
    k := 0;
    if i == 0 {
    } else {
      k := FirstErrorStays(n, gates, steps, i - 1);
      OnlySendsAppend(n, gates[i - 1], steps[i - 1]);
      if steps[i - 1].Send? && gates[i - 1].errs == [] {
        k := i - 1;
      }
    }
  }

  /** The error the gate returns is the first one that was sent. */
  lemma FirstErrorIsReturned(n: nat, gates: seq<Gate>, steps: seq<Step>, i: nat) returns (k: nat)
    requires Run(n, gates, steps) && i < |gates| && gates[i].dispatcher.Returned? && gates[i].dispatcher.answer.Failed?
    ensures k < i && FirstSent(gates, steps, k, gates[i].dispatcher.answer.job)
  {
    InvAlways(n, gates, steps, i);
    k := FirstErrorStays(n, gates, steps, i);
  }

  /** Whoever has sent an error cancels the other checks before the gate returns. */
  lemma {:induction false} ErrorsCancel(n: nat, gates: seq<Gate>, steps: seq<Step>, i: nat)
    requires Run(n, gates, steps) && i < |gates|
    ensures gates[i].errs != [] ==> gates[i].cancelled || Has(gates[i].workers, Cancelling)
    ensures gates[i].errs != [] && gates[i].dispatcher.Returned? ==> gates[i].cancelled
  {
    InvAlways(n, gates, steps, i);
    if i == 0 {
    } else {
      ErrorsCancel(n, gates, steps, i - 1);
      var g, s := gates[i - 1], steps[i - 1];
      CancellingStays(n, g, s);
    }
  }

  lemma CancellingStays(n: nat, g: Gate, s: Step)
    requires Enabled(n, g, s)
    ensures Has(g.workers, Cancelling) && !s.Cancel? ==> Has(Take(n, g, s).workers, Cancelling)
    ensures s.Send? ==> Has(Take(n, g, s).workers, Cancelling)
  {
    var ws := Take(n, g, s).workers;
    if s.Send? {
      assert ws[s.w] == Cancelling;
    } else if Has(g.workers, Cancelling) && !s.Cancel? {
      var v :| 0 <= v < |g.workers| && g.workers[v] == Cancelling;
      assert ws[v] == Cancelling;
    }
  }

  // ----- No blocking --------------------------------------------------------------------

  function Numbers(n: nat): (s: set<nat>)
    ensures |s| == n && forall j: nat :: j in s <==> j < n
  {
    if n == 0 then {} else Numbers(n - 1) + {n - 1}
  }

  /** A worker about to send always finds room in the error channel. */
  lemma ErrorChannelHasRoom(n: nat, g: Gate, w: nat)
    requires Inv(n, g) && w < |g.workers| && g.workers[w].Sending?
    ensures |g.errs| < n && Enabled(n, g, Send(w))
  {
    assert Has(g.workers, g.workers[w]);
    DistinctSize(g.errs);
    var all := Elements(g.errs) + {g.workers[w].job};
    assert |all| == |g.errs| + 1;
    SubsetSize(all, Numbers(n));
  }

  /** Until the gate returns, some step of its own is possible: nothing waits for the caller
      to give up and no worker blocks. */
  lemma GateNeverStuck(n: nat, gates: seq<Gate>, steps: seq<Step>, i: nat) returns (s: Step)
    requires Run(n, gates, steps) && i < |gates| && !gates[i].dispatcher.Returned?
    ensures Enabled(n, gates[i], s) && s != CallerGivesUp
  {
    InvAlways(n, gates, steps, i);
    var g := gates[i];
    if forall w | 0 <= w < |g.workers| :: g.workers[w] == Exited {
      assert g.workers[0] == Exited;
      s := Collect;
    } else {
      var w: nat :| w < |g.workers| && g.workers[w] != Exited;
      match g.workers[w]
      case Checking(_) => s := Finish(w, true);
      case Sending(_) =>
        ErrorChannelHasRoom(n, g, w);
        s := Send(w);
      case Cancelling => s := Cancel(w);
      case Idle => s := if g.dispatcher == Closed then Exit(w) else if g.next < n then Dispatch(w) else Close;
    }
  }

  function Busy(g: Gate): set<nat> {
    set w: nat | w < |g.workers| && g.workers[w].Checking? :: w
  }

  /** At most min(8, n) checks run at once. */
  lemma ChecksBounded(n: nat, gates: seq<Gate>, steps: seq<Step>, i: nat)
    requires Run(n, gates, steps) && i < |gates|
    ensures |gates[i].workers| == Min(n, 8) && |Busy(gates[i])| <= Min(n, 8)
  {
    InvAlways(n, gates, steps, i);
    SubsetSize(Busy(gates[i]), Numbers(Limit(n)));
  }

  // ----- Termination ---------------------------------------------------------------------

  function Load(w: Worker): nat {
    match w
    case Checking(_) => 4 case Sending(_) => 3 case Cancelling => 2 case Idle => 1 case Exited => 0
  }

  function TotalLoad(ws: seq<Worker>): nat {
    if ws == [] then 0 else TotalLoad(ws[..|ws| - 1]) + Load(ws[|ws| - 1])
  }

  lemma {:induction false} LoadMoved(ws: seq<Worker>, w: nat, y: Worker)
    requires w < |ws|
    ensures TotalLoad(ws[w := y]) == TotalLoad(ws) - Load(ws[w]) + Load(y)
  {
    var p := ws[..|ws| - 1];
    if w == |ws| - 1 {
      assert ws[w := y][..|ws| - 1] == p;
    } else {
      LoadMoved(p, w, y);
      assert ws[w := y][..|ws| - 1] == p[w := y];
    }
  }

  lemma {:induction false} LoadOfIdle(n: nat)
    ensures TotalLoad(seq(n, i => Idle)) == n
  {
    if n == 0 {
    } else {
      LoadOfIdle(n - 1);
      assert seq(n, i => Idle)[..n - 1] == seq(n - 1, i => Idle);
    }
  }

  function Measure(n: nat, g: Gate): int {
    4 * (n - g.next) + TotalLoad(g.workers)
    + (match g.dispatcher case Looping => 2 case Closed => 1 case Returned(_) => 0)
    + (if g.parentDone then 0 else 1)
  }

  lemma StepDescends(n: nat, g: Gate, s: Step)
    requires Enabled(n, g, s)
    ensures Measure(n, Take(n, g, s)) < Measure(n, g)
  {
    match s
    case Dispatch(w) => LoadMoved(g.workers, w, Checking(g.next));
    case Finish(w, ok) => LoadMoved(g.workers, w, if ok then Idle else Sending(g.workers[w].job));
    case Send(w) => LoadMoved(g.workers, w, Cancelling);
    case Cancel(w) => LoadMoved(g.workers, w, Idle);
    case Exit(w) => LoadMoved(g.workers, w, Exited);
    case _ =>
  }

  /** No run is longer than 4n + min(8, n) + 3 steps, so a run that cannot go on has returned. */
  lemma {:induction false} GateTerminates(n: nat, gates: seq<Gate>, steps: seq<Step>, i: nat)
    requires Run(n, gates, steps) && i < |gates|
    ensures i + Measure(n, gates[i]) <= 4 * n + Limit(n) + 3
    ensures i <= 4 * n + Min(n, 8) + 3
  {
    InvAlways(n, gates, steps, i);
    if i > 0 {
      GateTerminates(n, gates, steps, i - 1);
      StepDescends(n, gates[i - 1], steps[i - 1]);
    } else {
      LoadOfIdle(Limit(n));
    }
  }
}
