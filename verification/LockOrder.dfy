/** The connection pool's four lock classes. Every operation takes them in the order
    createMu, pool mu, service mu, connection mu, never two of one class, so any number of
    threads can always make progress. */
module LockOrder {
  import opened Errors

  datatype Lock = CreateMu(pool: nat) | PoolMu | ServiceMu(pool: nat) | ConnMu(conn: nat)
  {
    function Rank(): int {
      match this
      case CreateMu(_) => 0 case PoolMu => 1 case ServiceMu(_) => 2 case ConnMu(_) => 3
    }
  }

  datatype Mode = Shared | Exclusive

  /** `Local` is any work that takes no pool lock and ends: reading fields, Close of a
      connection, createFunc. */
  datatype Op = Acquire(lock: Lock, mode: Mode) | Release(lock: Lock) | Local

  // ----- The operations, as the locks they take --------------------------------------------

  type Conns = seq<nat>

  /** A service pool visited by a loop, and the connections visited inside. */
  datatype Visit = Visit(pool: nat, conns: Conns)

  function Under(l: Lock, m: Mode, body: seq<Op>): seq<Op> {
    [Acquire(l, m)] + body + [Release(l)]
  }

  /** The loop that locks and closes connections one by one. */
  function CloseEach(conns: Conns): seq<Op> {
    if conns == [] then [] else Under(ConnMu(conns[0]), Exclusive, [Local]) + CloseEach(conns[1..])
  }

  function ReadEach(conns: Conns): seq<Op> {
    if conns == [] then [] else Under(ConnMu(conns[0]), Shared, [Local]) + ReadEach(conns[1..])
  }

  /** Each service pool's mutex in turn, with the connections it visits read inside. */
  function VisitEach(visits: seq<Visit>, m: Mode): seq<Op> {
    if visits == [] then []
    else Under(ServiceMu(visits[0].pool), m, [Local] + ReadEach(visits[0].conns)) + VisitEach(visits[1..], m)
  }

  function SelectReusable(pool: nat, unhealthy: Conns): seq<Op> {
    Under(ServiceMu(pool), Exclusive, [Local]) + CloseEach(unhealthy)
  }

  function CloseAllConnections(pool: nat, conns: Conns): seq<Op> {
    Under(ServiceMu(pool), Exclusive, [Local]) + CloseEach(conns)
  }

  /** How serviceConnectionPool.GetConnection goes: reuse at once, reuse after waiting for
      createMu, or a creation that succeeds or fails. */
  datatype GetPath =
    | Reused(unhealthy: Conns)
    | ReusedLate(unhealthy: Conns, late: Conns)
    | Created(unhealthy: Conns, late: Conns, evicted: Conns, ok: bool)

  function ServiceGet(pool: nat, p: GetPath): seq<Op> {
    SelectReusable(pool, p.unhealthy) +
    match p
    case Reused(_) => []
    case ReusedLate(_, late) => Under(CreateMu(pool), Exclusive, SelectReusable(pool, late))
    case Created(_, late, evicted, ok) =>
      Under(CreateMu(pool), Exclusive,
            SelectReusable(pool, late)
            + (Under(ServiceMu(pool), Exclusive, [Local]) + CloseEach(evicted)
               + ([Local] + if ok then Under(ServiceMu(pool), Exclusive, [Local]) else [])))
  }

  /** The service found for a name, with its connections; None when there is none. */
  function CloseConnection(found: Option<Visit>): seq<Op> {
    Under(PoolMu, Shared, [Local]) +
    match found
    case None => []
    case Some(v) =>
      Under(CreateMu(v.pool), Exclusive,
            CloseAllConnections(v.pool, v.conns) + Under(PoolMu, Exclusive, [Local]))
  }

  /** One round of getConnectionWithRetry up to its re-read: `evict` is present when the pool
      is at capacity. The LRU scan runs under the pool lock, CloseConnection after it. */
  datatype Round = Round(scan: seq<Visit>, evict: Option<Option<Visit>>)

  function LookUp(r: Round): seq<Op> {
    (match r.evict
     case None => Under(PoolMu, Exclusive, [Local])
     case Some(found) =>
       Under(PoolMu, Exclusive, [Local] + VisitEach(r.scan, Shared))
       + (CloseConnection(found) + Under(PoolMu, Exclusive, [Local])))
    + Under(PoolMu, Shared, [Local])
  }

  function LookUps(rounds: seq<Round>): seq<Op> {
    if rounds == [] then [] else LookUp(rounds[0]) + LookUps(rounds[1..])
  }

  function CloseServices(visits: seq<Visit>): seq<Op> {
    if visits == [] then []
    else Under(CreateMu(visits[0].pool), Exclusive, CloseAllConnections(visits[0].pool, visits[0].conns))
         + CloseServices(visits[1..])
  }

  /** One idle sweep: collect under the locks, close after them, write back under them. */
  datatype Sweep = Sweep(scan: seq<Visit>, victims: Conns, kept: seq<Visit>)

  function SweepOnce(s: Sweep): seq<Op> {
    Under(PoolMu, Exclusive, [Local] + VisitEach(s.scan, Exclusive))
    + (CloseEach(s.victims) + Under(PoolMu, Exclusive, [Local] + VisitEach(s.kept, Exclusive)))
  }

  function Sweeps(ss: seq<Sweep>): seq<Op> {
    if ss == [] then [] else SweepOnce(ss[0]) + Sweeps(ss[1..])
  }

  /** What a thread does. `got` is None when the retries run out and the connection is made
      outside the pool. `cleaner` is the cleanup thread CloseAll first waits for, if any.
      Reading covers TotalConnectionCount, GetServiceStatus, GetStats and HealthCheck. */
  datatype Task =
    | GetConnection(rounds: seq<Round>, pool: nat, got: Option<GetPath>)
    | Closing(found: Option<Visit>)
    | ClosingAll(cleaner: Option<nat>, visits: seq<Visit>)
    | Cleaning(sweeps: seq<Sweep>)
    | Reading(visits: seq<Visit>)

  function Ops(t: Task): seq<Op> {
    match t
    case GetConnection(rounds, pool, got) =>
      LookUps(rounds) + (match got case None => [Local] case Some(p) => ServiceGet(pool, p))
    case Closing(found) => CloseConnection(found)
    case ClosingAll(cleaner, visits) =>
      Under(PoolMu, Shared, [Local]) + (CloseServices(visits) + Under(PoolMu, Exclusive, [Local]))
    case Cleaning(sweeps) => Sweeps(sweeps)
    case Reading(visits) => Under(PoolMu, Shared, [Local] + VisitEach(visits, Shared))
  }

  // ----- Discipline ---------------------------------------------------------------------------

  predicate Above(held: set<Lock>, rank: int) {
    forall h | h in held :: h.Rank() < rank
  }

  /** Lock `l` may be taken while holding `held`: it is higher than all of these. A connection
      is locked exclusively only to be closed, and that only under createMu at most. */
  predicate MayTake(held: set<Lock>, l: Lock, m: Mode) {
    Above(held, l.Rank()) && (l.ConnMu? && m == Exclusive ==> Above(held, 1))
  }

  /** The locks held after `ops`, starting with `held`; None if some lock is taken when it may
      not be or something not held is released. */
  function Trace(held: set<Lock>, ops: seq<Op>): Option<set<Lock>>
    decreases |ops|
  {
    if ops == [] then Some(held)
    else
      match ops[0]
      case Acquire(l, m) => if MayTake(held, l, m) then Trace(held + {l}, ops[1..]) else None
      case Release(l) => if l in held then Trace(held - {l}, ops[1..]) else None
      case Local => Trace(held, ops[1..])
  }

  lemma {:induction false} TraceAppend(held: set<Lock>, a: seq<Op>, b: seq<Op>)
    ensures Trace(held, a + b) == match Trace(held, a) case None => None case Some(h) => Trace(h, b)
    decreases |a|
  {
    if a == [] {
      assert a + b == b;
    } else {
      assert (a + b)[1..] == a[1..] + b;
      match a[0]
      case Acquire(l, _) => TraceAppend(held + {l}, a[1..], b);
      case Release(l) => TraceAppend(held - {l}, a[1..], b);
      case _ => TraceAppend(held, a[1..], b);
    }
  }

  /** `ops` respects the order from `held` and gives everything it takes back. */
  predicate Balanced(held: set<Lock>, ops: seq<Op>) {
    Trace(held, ops) == Some(held)
  }

  lemma BalancedAppend(held: set<Lock>, a: seq<Op>, b: seq<Op>)
    requires Balanced(held, a) && Balanced(held, b)
    ensures Balanced(held, a + b)
  {
    TraceAppend(held, a, b);
  }

  lemma BalancedUnder(held: set<Lock>, l: Lock, m: Mode, body: seq<Op>)
    requires MayTake(held, l, m) && Balanced(held + {l}, body)
    ensures Balanced(held, Under(l, m, body))
  {
    assert Under(l, m, body)[1..] == body + [Release(l)];
    TraceAppend(held + {l}, body, [Release(l)]);
    assert held + {l} - {l} == held;
    assert [Release(l)][1..] == [];
  }

  lemma BalancedLocal(held: set<Lock>)
    ensures Balanced(held, []) && Balanced(held, [Local])
  {
  }

  lemma LocalUnder(held: set<Lock>, l: Lock, m: Mode)
    requires MayTake(held, l, m)
    ensures Balanced(held, Under(l, m, [Local]))
  {
    BalancedLocal(held + {l});
    BalancedUnder(held, l, m, [Local]);
  }

  lemma {:induction false} CloseEachBalanced(held: set<Lock>, conns: Conns)
    requires Above(held, 1)
    ensures Balanced(held, CloseEach(conns))
  {
    if conns == [] {
    } else {
      CloseEachBalanced(held, conns[1..]);
      LocalUnder(held, ConnMu(conns[0]), Exclusive);
      BalancedAppend(held, Under(ConnMu(conns[0]), Exclusive, [Local]), CloseEach(conns[1..]));
    }
  }

  lemma {:induction false} ReadEachBalanced(held: set<Lock>, conns: Conns)
    requires Above(held, 3)
    ensures Balanced(held, ReadEach(conns))
  {
    if conns == [] {
    } else {
      ReadEachBalanced(held, conns[1..]);
      LocalUnder(held, ConnMu(conns[0]), Shared);
      BalancedAppend(held, Under(ConnMu(conns[0]), Shared, [Local]), ReadEach(conns[1..]));
    }
  }

  lemma {:induction false} VisitEachBalanced(held: set<Lock>, visits: seq<Visit>, m: Mode)
    requires Above(held, 2)
    ensures Balanced(held, VisitEach(visits, m))
  {
    if visits == [] {
    } else {
      var l, body := ServiceMu(visits[0].pool), ReadEach(visits[0].conns);
      ReadEachBalanced(held + {l}, visits[0].conns);
      BalancedLocal(held + {l});
      BalancedAppend(held + {l}, [Local], body);
      BalancedUnder(held, l, m, [Local] + body);
      VisitEachBalanced(held, visits[1..], m);
      BalancedAppend(held, Under(l, m, [Local] + body), VisitEach(visits[1..], m));
    }
  }

  lemma PoolWideBalanced(visits: seq<Visit>, m: Mode, inner: Mode)
    ensures Balanced({}, Under(PoolMu, m, [Local] + VisitEach(visits, inner)))
  {
    VisitEachBalanced({PoolMu}, visits, inner);
    BalancedLocal({PoolMu});
    BalancedAppend({PoolMu}, [Local], VisitEach(visits, inner));
    assert {} + {PoolMu} == {PoolMu};
    BalancedUnder({}, PoolMu, m, [Local] + VisitEach(visits, inner));
  }

  lemma SelectBalanced(held: set<Lock>, pool: nat, conns: Conns)
    requires Above(held, 1)
    ensures Balanced(held, SelectReusable(pool, conns)) && Balanced(held, CloseAllConnections(pool, conns))
  {
    LocalUnder(held, ServiceMu(pool), Exclusive);
    CloseEachBalanced(held, conns);
    BalancedAppend(held, Under(ServiceMu(pool), Exclusive, [Local]), CloseEach(conns));
  }

  lemma CreateBalanced(held: set<Lock>, pool: nat, evicted: Conns, ok: bool)
    requires Above(held, 1)
    ensures Balanced(held, Under(ServiceMu(pool), Exclusive, [Local]) + CloseEach(evicted)
                           + ([Local] + if ok then Under(ServiceMu(pool), Exclusive, [Local]) else []))
  {
    SelectBalanced(held, pool, evicted);
    BalancedLocal(held);
    LocalUnder(held, ServiceMu(pool), Exclusive);
    var tail := if ok then Under(ServiceMu(pool), Exclusive, [Local]) else [];
    BalancedAppend(held, [Local], tail);
    BalancedAppend(held, Under(ServiceMu(pool), Exclusive, [Local]) + CloseEach(evicted), [Local] + tail);
  }

  lemma ServiceGetBalanced(pool: nat, p: GetPath)
    ensures Balanced({}, ServiceGet(pool, p))
  {
    SelectBalanced({}, pool, p.unhealthy);
    BalancedLocal({});
    var l := CreateMu(pool);
    assert {} + {l} == {l};
    match p
    case Reused(_) => BalancedAppend({}, SelectReusable(pool, p.unhealthy), []);
    case ReusedLate(_, late) =>
      SelectBalanced({l}, pool, late);
      BalancedUnder({}, l, Exclusive, SelectReusable(pool, late));
      BalancedAppend({}, SelectReusable(pool, p.unhealthy), Under(l, Exclusive, SelectReusable(pool, late)));
    case Created(_, late, evicted, ok) =>
      SelectBalanced({l}, pool, late);
      CreateBalanced({l}, pool, evicted, ok);
      var body := Under(ServiceMu(pool), Exclusive, [Local]) + CloseEach(evicted)
                  + ([Local] + if ok then Under(ServiceMu(pool), Exclusive, [Local]) else []);
      BalancedAppend({l}, SelectReusable(pool, late), body);
      BalancedUnder({}, l, Exclusive, SelectReusable(pool, late) + body);
      BalancedAppend({}, SelectReusable(pool, p.unhealthy), Under(l, Exclusive, SelectReusable(pool, late) + body));
  }

  lemma CloseConnectionBalanced(found: Option<Visit>)
    ensures Balanced({}, CloseConnection(found))
  {
    LocalUnder({}, PoolMu, Shared);
    BalancedLocal({});
    match found
    case None => BalancedAppend({}, Under(PoolMu, Shared, [Local]), []);
    case Some(v) =>
      var l, close := CreateMu(v.pool), CloseAllConnections(v.pool, v.conns);
      SelectBalanced({l}, v.pool, v.conns);
      LocalUnder({l}, PoolMu, Exclusive);
      BalancedAppend({l}, close, Under(PoolMu, Exclusive, [Local]));
      assert {} + {l} == {l};
      BalancedUnder({}, l, Exclusive, close + Under(PoolMu, Exclusive, [Local]));
      BalancedAppend({}, Under(PoolMu, Shared, [Local]), Under(l, Exclusive, close + Under(PoolMu, Exclusive, [Local])));
  }

  lemma LookUpBalanced(r: Round)
    ensures Balanced({}, LookUp(r))
  {
    LocalUnder({}, PoolMu, Exclusive);
    LocalUnder({}, PoolMu, Shared);
    var last := Under(PoolMu, Shared, [Local]);
    match r.evict
    case None => BalancedAppend({}, Under(PoolMu, Exclusive, [Local]), last);
    case Some(found) =>
      var scan, relock := Under(PoolMu, Exclusive, [Local] + VisitEach(r.scan, Shared)), Under(PoolMu, Exclusive, [Local]);
      PoolWideBalanced(r.scan, Exclusive, Shared);
      CloseConnectionBalanced(found);
      BalancedAppend({}, CloseConnection(found), relock);
      BalancedAppend({}, scan, CloseConnection(found) + relock);
      BalancedAppend({}, scan + (CloseConnection(found) + relock), last);
  }

  lemma {:induction false} LookUpsBalanced(rounds: seq<Round>)
    ensures Balanced({}, LookUps(rounds))
  {
    if rounds == [] {
    } else {
      LookUpBalanced(rounds[0]);
      LookUpsBalanced(rounds[1..]);
      BalancedAppend({}, LookUp(rounds[0]), LookUps(rounds[1..]));
    }
  }

  lemma {:induction false} CloseServicesBalanced(visits: seq<Visit>)
    ensures Balanced({}, CloseServices(visits))
  {
    if visits == [] {
    } else {
      var l, close := CreateMu(visits[0].pool), CloseAllConnections(visits[0].pool, visits[0].conns);
      SelectBalanced({l}, visits[0].pool, visits[0].conns);
      assert {} + {l} == {l};
      BalancedUnder({}, l, Exclusive, close);
      CloseServicesBalanced(visits[1..]);
      BalancedAppend({}, Under(l, Exclusive, close), CloseServices(visits[1..]));
    }
  }

  lemma {:induction false} SweepsBalanced(ss: seq<Sweep>)
    ensures Balanced({}, Sweeps(ss))
  {
    if ss == [] {
    } else {
      var s := ss[0];
      PoolWideBalanced(s.scan, Exclusive, Exclusive);
      PoolWideBalanced(s.kept, Exclusive, Exclusive);
      CloseEachBalanced({}, s.victims);
      var back := Under(PoolMu, Exclusive, [Local] + VisitEach(s.kept, Exclusive));
      BalancedAppend({}, CloseEach(s.victims), back);
      BalancedAppend({}, Under(PoolMu, Exclusive, [Local] + VisitEach(s.scan, Exclusive)), CloseEach(s.victims) + back);
      SweepsBalanced(ss[1..]);
      BalancedAppend({}, SweepOnce(s), Sweeps(ss[1..]));
    }
  }

  /** Every operation of the pool respects the lock order and leaves nothing locked. */
  lemma TasksAreDisciplined(t: Task)
    ensures Balanced({}, Ops(t))
  {
    match t
    case GetConnection(rounds, pool, got) =>
      LookUpsBalanced(rounds);
      match got {
        case None =>
          BalancedLocal({});
          BalancedAppend({}, LookUps(rounds), [Local]);
        case Some(p) =>
          ServiceGetBalanced(pool, p);
          BalancedAppend({}, LookUps(rounds), ServiceGet(pool, p));
      }
    case Closing(found) => CloseConnectionBalanced(found);
    case ClosingAll(cleaner, visits) =>
      LocalUnder({}, PoolMu, Shared);
      LocalUnder({}, PoolMu, Exclusive);
      CloseServicesBalanced(visits);
      var tail := CloseServices(visits) + Under(PoolMu, Exclusive, [Local]);
      BalancedAppend({}, CloseServices(visits), Under(PoolMu, Exclusive, [Local]));
      BalancedAppend({}, Under(PoolMu, Shared, [Local]), tail);
    case Cleaning(sweeps) => SweepsBalanced(sweeps);
    case Reading(visits) => PoolWideBalanced(visits, Shared, Shared);
  }

  lemma HeldAt(ops: seq<Op>, i: nat)
    requires Balanced({}, ops) && i < |ops| && ops[i].Acquire?
    ensures var held := Trace({}, ops[..i]);
      held.Some? && MayTake(held.value, ops[i].lock, ops[i].mode)
  {
    assert ops == ops[..i] + ops[i..];
    TraceAppend({}, ops[..i], ops[i..]);
  }

  /** No connection is closed under a service's or the pool's mutex: whenever an operation locks
      one to close it, all it holds is createMu, if anything. */
  lemma ClosesHoldNoMutex(t: Task, i: nat)
    requires i < |Ops(t)| && Ops(t)[i].Acquire? && Ops(t)[i].lock.ConnMu? && Ops(t)[i].mode == Exclusive
    ensures var held := Trace({}, Ops(t)[..i]);
      held.Some? && forall l | l in held.value :: l.CreateMu?
  {
    TasksAreDisciplined(t);
    HeldAt(Ops(t), i);
  }

  /** Releasing the pool's lock before closing is needed: an eviction that kept it would ask for
      the lock it holds. */
  lemma KeepingThePoolLockFails(found: Option<Visit>)
    ensures Trace({}, Under(PoolMu, Exclusive, [Local] + CloseConnection(found))) == None
  {
    CloseBegins(found);
    RelockFails([Local] + CloseConnection(found));
  }

  lemma CloseBegins(found: Option<Visit>)
    ensures CloseConnection(found) != [] && CloseConnection(found)[0] == Acquire(PoolMu, Shared)
  {
  }

  lemma RelockFails(body: seq<Op>)
    requires |body| > 1 && body[0] == Local && body[1].Acquire? && body[1].lock == PoolMu
    ensures Trace({}, Under(PoolMu, Exclusive, body)) == None
  {
    var ops := Under(PoolMu, Exclusive, body);
    var held := {} + {PoolMu};
    assert !Above(held, PoolMu.Rank()) by {
      assert PoolMu in held;
    }
    assert ops[1..][0] == Local && ops[1..][1..][0] == body[1];
    assert Trace(held, ops[1..][1..]) == None;
    assert Trace(held, ops[1..]) == None;
  }

  // ----- Threads ----------------------------------------------------------------------------

  /** `announced`: the next operation is an exclusive acquisition that has queued, which from
      then on keeps new readers out. `waitsFor`: a thread that must finish before this starts. */
  datatype Thread = Thread(held: map<Lock, Mode>, todo: seq<Op>, announced: bool, waitsFor: Option<nat>)
  {
    predicate Finished() { todo == [] && waitsFor.None? }

    predicate Wants(l: Lock, m: Mode) { todo != [] && todo[0] == Acquire(l, m) }
  }

  ghost predicate Held(ts: seq<Thread>, l: Lock) {
    exists i | 0 <= i < |ts| :: l in ts[i].held
  }

  ghost predicate HeldExclusively(ts: seq<Thread>, l: Lock) {
    exists i | 0 <= i < |ts| :: l in ts[i].held && ts[i].held[l] == Exclusive
  }

  ghost predicate WriterQueued(ts: seq<Thread>, l: Lock) {
    exists i | 0 <= i < |ts| :: ts[i].announced && ts[i].Wants(l, Exclusive)
  }

  ghost predicate CanStep(ts: seq<Thread>, i: nat) {
    && i < |ts| && !ts[i].Finished()
    && if ts[i].waitsFor.Some? then
         ts[i].waitsFor.value < |ts| ==> ts[ts[i].waitsFor.value].Finished()
       else
         match ts[i].todo[0]
         case Acquire(l, Shared) => !HeldExclusively(ts, l) && !WriterQueued(ts, l)
         case Acquire(l, Exclusive) => ts[i].announced ==> !Held(ts, l)
         case _ => true
  }

  function StepThread(t: Thread): Thread
    requires !t.Finished()
  {
    if t.waitsFor.Some? then t.(waitsFor := None)
    else
      var rest := t.(todo := t.todo[1..], announced := false);
      match t.todo[0]
      case Acquire(l, Exclusive) =>
        if t.announced then rest.(held := t.held[l := Exclusive]) else t.(announced := true)
      case Acquire(l, Shared) => rest.(held := t.held[l := Shared])
      case Release(l) => rest.(held := t.held - {l})
      case Local => rest
  }

  function Begin(task: Task): Thread {
    Thread(map[], Ops(task), false, if task.ClosingAll? then task.cleaner else None)
  }

  function BeginAll(tasks: seq<Task>): seq<Thread> {
    seq(|tasks|, i requires 0 <= i < |tasks| => Begin(tasks[i]))
  }

  /** CloseAll waits only for a cleanup thread. */
  predicate WaitsForCleaner(tasks: seq<Task>) {
    forall i | 0 <= i < |tasks| && tasks[i].ClosingAll? && tasks[i].cleaner.Some? && tasks[i].cleaner.value < |tasks| ::
      tasks[tasks[i].cleaner.value].Cleaning?
  }

  /** An execution of any number of tasks: `who[n]` steps from state n to state n + 1. */
  ghost predicate Execution(tasks: seq<Task>, states: seq<seq<Thread>>, who: seq<nat>) {
    && WaitsForCleaner(tasks) && |states| == |who| + 1 && states[0] == BeginAll(tasks)
    && forall n | 0 <= n < |who| ::
         CanStep(states[n], who[n]) && states[n + 1] == states[n][who[n] := StepThread(states[n][who[n]])]
  }

  ghost predicate Inv(ts: seq<Thread>) {
    && (forall i | 0 <= i < |ts| :: Trace(ts[i].held.Keys, ts[i].todo) == Some({}))
    && (forall i | 0 <= i < |ts| && ts[i].waitsFor.Some? ::
          && ts[i].held == map[] && !ts[i].announced
          && (ts[i].waitsFor.value < |ts| ==> ts[ts[i].waitsFor.value].waitsFor.None?))
  }

  lemma InvAtStart(tasks: seq<Task>)
    requires WaitsForCleaner(tasks)
    ensures Inv(BeginAll(tasks))
  {
    forall i | 0 <= i < |tasks| ensures Trace({}, Ops(tasks[i])) == Some({}) {
      TasksAreDisciplined(tasks[i]);
    }
    var none: map<Lock, Mode> := map[];
    assert none.Keys == {};
  }

  lemma StepKeepsInv(ts: seq<Thread>, i: nat)
    requires Inv(ts) && CanStep(ts, i)
    ensures Inv(ts[i := StepThread(ts[i])])
  {
    var t := ts[i];
    if t.waitsFor.None? && t.todo[0].Acquire? {
      assert t.held[t.todo[0].lock := t.todo[0].mode].Keys == t.held.Keys + {t.todo[0].lock};
    } else if t.waitsFor.None? && t.todo[0].Release? {
      assert (t.held - {t.todo[0].lock}).Keys == t.held.Keys - {t.todo[0].lock};
    }
  }

  lemma {:induction false} InvAlways(tasks: seq<Task>, states: seq<seq<Thread>>, who: seq<nat>, n: nat)
    requires Execution(tasks, states, who) && n < |states|
    ensures Inv(states[n]) && |states[n]| == |tasks|
  {
    if n == 0 {
      InvAtStart(tasks);
    } else {
      InvAlways(tasks, states, who, n - 1);
      StepKeepsInv(states[n - 1], who[n - 1]);
    }
  }

  // ----- Deadlock freedom ----------------------------------------------------------------------

  /** The rank of the lock a thread is after; below all ranks while it waits to start. */
  function WantedRank(t: Thread): int {
    if t.waitsFor.Some? || t.todo == [] || !t.todo[0].Acquire? then -1 else t.todo[0].lock.Rank()
  }

  /** Whoever holds a lock is unfinished, and if blocked it is after a higher one. */
  lemma HolderIsAhead(ts: seq<Thread>, h: nat, l: Lock)
    requires Inv(ts) && h < |ts| && l in ts[h].held && ts[h].waitsFor.None?
    ensures !ts[h].Finished() && (CanStep(ts, h) || WantedRank(ts[h]) > l.Rank())
  {
  }

  /** Following who blocks whom always climbs the lock order, so it ends at a thread that can
      step. A thread waiting to start holds nothing. */
  lemma {:induction false} SomeoneCanStep(ts: seq<Thread>, i: nat) returns (j: nat)
    requires Inv(ts) && i < |ts| && !ts[i].Finished()
    ensures CanStep(ts, j)
    decreases 4 - WantedRank(ts[i]), if ts[i].waitsFor.Some? then 1 else 0
  {
    if CanStep(ts, i) {
      return i;
    }
    if ts[i].waitsFor.Some? {
      j := SomeoneCanStep(ts, ts[i].waitsFor.value);
    } else {
      var l := ts[i].todo[0].lock;
      if WriterQueued(ts, l) {
        var w: nat :| w < |ts| && ts[w].announced && ts[w].Wants(l, Exclusive);
        if CanStep(ts, w) {
          return w;
        }
      }
      assert Held(ts, l);
      var h: nat :| h < |ts| && l in ts[h].held;
      HolderIsAhead(ts, h, l);
      if CanStep(ts, h) {
        return h;
      }
      j := SomeoneCanStep(ts, h);
    }
  }

  /** Deadlock freedom: in every reachable state with an unfinished task, some thread can step. */
  lemma PoolIsDeadlockFree(tasks: seq<Task>, states: seq<seq<Thread>>, who: seq<nat>, n: nat, i: nat) returns (j: nat)
    requires Execution(tasks, states, who) && n < |states|
    requires i < |states[n]| && !states[n][i].Finished()
    ensures CanStep(states[n], j)
  {
    InvAlways(tasks, states, who, n);
    j := SomeoneCanStep(states[n], i);
  }

  /** Two operations per acquisition (queue, take), one per anything else, one for a wait. */
  function Work(t: Thread): int {
    2 * |t.todo| + (if t.waitsFor.Some? then 1 else 0) - (if t.announced then 1 else 0)
  }

  function TotalWork(ts: seq<Thread>): int {
    if ts == [] then 0 else TotalWork(ts[..|ts| - 1]) + Work(ts[|ts| - 1])
  }

  lemma {:induction false} WorkMoved(ts: seq<Thread>, i: nat, t: Thread)
    requires i < |ts|
    ensures TotalWork(ts[i := t]) == TotalWork(ts) - Work(ts[i]) + Work(t)
  {
    var p := ts[..|ts| - 1];
    if i == |ts| - 1 {
      assert ts[i := t][..|ts| - 1] == p;
    } else {
      WorkMoved(p, i, t);
      assert ts[i := t][..|ts| - 1] == p[i := t];
    }
  }

  lemma {:induction false} WorkIsPositive(ts: seq<Thread>)
    requires forall i | 0 <= i < |ts| :: ts[i].announced ==> ts[i].todo != []
    ensures TotalWork(ts) >= 0
  {
    if ts == [] {
    } else {
      WorkIsPositive(ts[..|ts| - 1]);
    }
  }

  ghost predicate AnnouncedHasWork(ts: seq<Thread>) {
    forall i | 0 <= i < |ts| :: ts[i].announced ==> ts[i].todo != []
  }

  lemma StepDescends(ts: seq<Thread>, i: nat)
    requires i < |ts| && !ts[i].Finished() && AnnouncedHasWork(ts) && (ts[i].waitsFor.Some? ==> !ts[i].announced)
    ensures AnnouncedHasWork(ts[i := StepThread(ts[i])])
    ensures TotalWork(ts[i := StepThread(ts[i])]) < TotalWork(ts)
  {
    WorkMoved(ts, i, StepThread(ts[i]));
  }

  /** Every execution is finite, so with deadlock freedom every task of every execution that
      cannot be extended has finished. */
  lemma {:induction false} PoolTerminates(tasks: seq<Task>, states: seq<seq<Thread>>, who: seq<nat>, n: nat)
    requires Execution(tasks, states, who) && n < |states|
    ensures AnnouncedHasWork(states[n])
    ensures n <= n + TotalWork(states[n]) <= TotalWork(BeginAll(tasks))
  {
    if n == 0 {
    } else {
      PoolTerminates(tasks, states, who, n - 1);
      InvAlways(tasks, states, who, n - 1);
      StepDescends(states[n - 1], who[n - 1]);
    }
    WorkIsPositive(states[n]);
  }
}
