/** The pool of service pools, one uninterrupted call at a time: bounded number of services
    with least-recently-used eviction, closing, and the reaping of idle connections. */
module ConnectionPool {
  import opened Basics
  import opened Errors
  import opened ServicePool
  import Lru

  /** What a GetConnection call meets: the order the map happens to be iterated in, the
      instant it starts, its two glances at the connections, what createFunc yields and when. */
  datatype Visit = Visit(order: seq<string>, start: int, early: Glance, late: Glance, created: Option<nat>, end: int)

  ghost predicate Shut(conns: seq<PooledConnection>)
    reads set c | c in conns
  {
    forall c | c in conns :: c.shutdown
  }

  predicate Ordered(v: Visit) { v.start <= v.early.now <= v.late.now <= v.end }

  ghost predicate ShutUnless(conns: seq<PooledConnection>, kept: seq<PooledConnection>)
    reads set c | c in conns
  {
    forall c | c in conns && c !in kept :: c.shutdown
  }

  /** Requests that do not overlap, in order, for services with a name. */
  ghost predicate Sequential(requests: seq<(string, Visit)>) {
    && (forall i | 0 <= i < |requests| :: requests[i].0 != "" && Ordered(requests[i].1))
    && (forall i, j | 0 <= i < j < |requests| :: requests[i].1.end < requests[j].1.start)
  }

  /** The calls record these requests, each at some instant of its visit. */
  ghost predicate Answers(calls: seq<Lru.Call>, requests: seq<(string, Visit)>) {
    && |calls| == |requests|
    && forall i | 0 <= i < |calls| ::
         calls[i].name == requests[i].0 && requests[i].1.start <= calls[i].at <= requests[i].1.end
  }

  lemma SequentialUpTo(requests: seq<(string, Visit)>)
    requires Sequential(requests) && requests != []
    ensures var before, (name, v) := requests[..|requests| - 1], requests[|requests| - 1];
      && Sequential(before) && name != "" && Ordered(v)
      && (before != [] ==> before[|before| - 1].1.end < v.start)
  {
  }

  lemma AnswersExtend(calls: seq<Lru.Call>, requests: seq<(string, Visit)>, t: int)
    requires requests != [] && Answers(calls, requests[..|requests| - 1])
    requires requests[|requests| - 1].1.start <= t <= requests[|requests| - 1].1.end
    ensures Answers(calls + [Lru.Call(requests[|requests| - 1].0, t)], requests)
  {
  }

  class ConnectionPool {
    const maxServices: int
    const maxConnsPerService: int
    const idleTimeout: int
    const enabled: bool
    const strategy: Strategy
    var services: map<string, ServiceConnectionPool>

    ghost function Pools(): set<ServiceConnectionPool>
      reads this
    {
      set n | n in services :: services[n]
    }

    ghost function Listed(): set<PooledConnection>
      reads this, Pools()
    {
      set n, c | n in services && c in services[n].connections :: c
    }

    ghost function Footprint(): set<object>
      reads this, Pools()
    {
      {this} + Pools() + Listed()
    }

    /** Services share neither pools nor connections. */
    ghost predicate Valid()
      reads Footprint()
    {
      && (forall n | n in services :: services[n].Valid())
      && (forall a, b | a in services && b in services && a != b :: services[a] != services[b])
      && (forall a, b, c | a in services && b in services && a != b && c in services[a].connections :: c !in services[b].connections)
    }

    function Usage(): (u: Lru.Usage)
      reads this, Pools()
      ensures u.Keys == services.Keys && |u| == |services|
    {
      var u := map n | n in services :: services[n].lastUsed;
      assert u.Keys == services.Keys;
      u
    }

    constructor (maxServices: int, maxConnsPerService: int, idleTimeout: int, enabled: bool, strategy: Strategy)
      ensures Valid() && services == map[] && RecencyExact([]) && Left([], []) && Accounted({}) && Footprint() == {this}
      ensures this.maxServices == maxServices && this.maxConnsPerService == maxConnsPerService
      ensures this.idleTimeout == idleTimeout && this.enabled == enabled && this.strategy == strategy
    {
      this.maxServices, this.maxConnsPerService, this.idleTimeout := maxServices, maxConnsPerService, idleTimeout;
      this.enabled, this.strategy := enabled, strategy;
      services := map[];
    }

    /** The least recently used service, by one pass over the map in the given order. */
    method GetLRUServiceNameLocked(order: seq<string>) returns (oldest: string)
      requires forall n :: n in order <==> n in services
      ensures oldest == Lru.Scan(order, Usage())
      ensures oldest != "" ==> oldest in services
    {
      oldest := "";
      var oldestTime := 0;
      for i := 0 to |order|
        invariant oldest != "" ==> oldest in services
        invariant Lru.ScanFrom(order[i..], Usage(), oldest, oldestTime) == Lru.Scan(order, Usage())
      {
        var lastUsed := services[order[i]].lastUsed;
        assert order[i..][0] == order[i] && order[i..][1..] == order[i + 1..];
        if oldest == "" || lastUsed < oldestTime {
          oldest, oldestTime := order[i], lastUsed;
        }
      }
    }

    /** Service `n` is the same pool with the same list and instant as before. */
    twostate predicate Same(n: string)
      requires n in old(services) && n in services
      reads this, services[n]
    {
      && services[n] == old(services[n])
      && services[n].connections == old(services[n].connections)
      && services[n].lastUsed == old(services[n].lastUsed)
    }

    twostate lemma UsageStamped(name: string)
      requires services == old(services) && name in services
      requires forall n | n in services && n != name :: services[n].lastUsed == old(services[n].lastUsed)
      ensures Usage() == old(Usage())[name := services[name].lastUsed]
    {
    }

    twostate lemma UsageShrunk(gone: set<string>)
      requires services == old(services) - gone
      requires forall n | n in services :: services[n].lastUsed == old(services[n].lastUsed)
      ensures Usage() == old(Usage()) - gone
    {
    }

    /** Closes every connection of one service and empties its list. */
    method CloseService(name: string)
      requires Valid() && name in services
      modifies {services[name]}`connections, (set c | c in services[name].connections)`shutdown
      ensures Valid() && services[name].connections == []
      ensures forall c | c in old(services[name].connections) :: c.shutdown
      ensures forall n | n in services && n != name :: Same(n)
    {
      services[name].CloseAllConnections();
      forall n | n in services && n != name ensures Same(n) && services[n].Valid() {
        assert services[n] != services[name];
      }
    }

    method CloseAndForget(name: string)
      requires Valid() && name in services
      modifies this`services, {services[name]}`connections, (set c | c in services[name].connections)`shutdown
      ensures Valid() && services == old(services) - {name}
      ensures forall c | c in old(services[name].connections) :: c.shutdown
      ensures forall n | n in services :: Same(n)
    {
      CloseService(name);
      services := services - {name};
    }

    /** Closes and removes one service; nothing else changes. */
    method CloseConnection(name: string)
      requires Valid()
      modifies this`services, (if name in services then {services[name]} else {})`connections,
               (set c | name in services && c in services[name].connections)`shutdown
      ensures Valid()
      ensures services == if enabled then old(services) - {name} else old(services)
      ensures enabled && name in old(services) ==> forall c | c in old(services[name].connections) :: c.shutdown
      ensures forall n | n in services :: Same(n)
      ensures Usage() == if enabled then old(Usage()) - {name} else old(Usage())
    {
      if enabled && name in services {
        CloseAndForget(name);
        UsageShrunk({name});
      }
    }

    /** Closes and removes the service the scan finds, if it finds one. */
    method EvictOldest(order: seq<string>) returns (evicted: string)
      requires Valid() && enabled && forall n :: n in order <==> n in services
      modifies this`services, Pools()`connections, (set n, c | n in services && c in services[n].connections :: c)`shutdown
      ensures Valid() && evicted == Lru.Scan(order, old(Usage()))
      ensures evicted != "" ==> evicted in old(services) && Shut(old(services[evicted].connections))
      ensures services == if evicted == "" then old(services) else old(services) - {evicted}
      ensures forall n | n in services && n in old(services) :: Same(n)
      ensures Usage() == if evicted == "" then old(Usage()) else old(Usage()) - {evicted}
    {
      evicted := GetLRUServiceNameLocked(order);
      if evicted != "" {
        CloseConnection(evicted);
      }
    }

    twostate lemma UsageAdded(name: string)
      requires name !in old(services) && name in services && services == old(services)[name := services[name]]
      requires forall n | n in old(services) :: services[n].lastUsed == old(services[n].lastUsed)
      ensures Usage() == old(Usage())[name := services[name].lastUsed]
    {
    }

    method AddService(name: string, now: int)
      requires Valid() && name !in services
      modifies this`services
      ensures Valid() && name in services && services == old(services)[name := services[name]]
      ensures fresh(services[name]) && services[name].connections == [] && services[name].lastUsed == now
      ensures forall n | n in old(services) :: Same(n)
    {
      var pool := new ServiceConnectionPool(now);
      assert forall n | n in services :: services[n].Valid();
      services := services[name := pool];
    }

    /** A full map loses its least recently used service, whose connections are closed. */
    method MakeRoom(order: seq<string>) returns (evicted: string)
      requires Valid() && enabled && forall n :: n in order <==> n in services
      modifies this`services, Pools()`connections, (set n, c | n in services && c in services[n].connections :: c)`shutdown
      ensures Valid() && evicted == if |old(services)| < maxServices then "" else Lru.Scan(order, old(Usage()))
      ensures evicted != "" ==> evicted in old(services) && Shut(old(services[evicted].connections))
      ensures services == if evicted == "" then old(services) else old(services) - {evicted}
      ensures forall n | n in services && n in old(services) :: Same(n)
      ensures Usage() == if evicted == "" then old(Usage()) else old(Usage()) - {evicted}
    {
      evicted := "";
      if |services| >= maxServices {
        evicted := EvictOldest(order);
      }
    }

    /** The next request was later than every earlier use of any service. */
    ghost predicate ClockAhead(now: int)
      reads this, Pools()
    {
      forall n | n in services :: services[n].lastUsed < now
    }

    method ServeOnly(name: string, v: Visit) returns (conn: PooledConnection?)
      requires Valid() && Ordered(v) && name in services && services[name].lastUsed <= v.start
      modifies services[name], set c | c in services[name].connections
      ensures Valid()
      ensures v.start <= services[name].lastUsed <= v.end
      ensures services[name].Served(strategy, maxConnsPerService, v.early, v.late, v.created, conn)
      ensures forall c | c in services[name].connections :: c in old(services[name].connections) || fresh(c)
      ensures conn != null ==> conn in services[name].connections && !conn.shutdown
      ensures ShutUnless(old(services[name].connections), services[name].connections)
    {
      conn := services[name].GetConnection(strategy, maxConnsPerService, v.early, v.late, v.created, v.end);
      forall n | n in services && n != name ensures services[n].Valid() {
        assert services[n] != services[name];
      }
    }

    /** Of the services there are now, only `name` changed, and it holds nothing but its old
        connections and new ones. */
    twostate predicate OnlyTouched(name: string)
      reads this, Pools()
    {
      && name in services && (forall n | n in services && n != name :: n in old(services) && Same(n))
      && (forall c | c in services[name].connections ::
            fresh(c) || (name in old(services) && c in old(services[name].connections)))
      && (if name in old(services) then services[name] == old(services[name]) else fresh(services[name]))
    }

    /** Asks one service for a connection; no other service notices. */
    method Serve(name: string, v: Visit) returns (conn: PooledConnection?)
      requires Valid() && Ordered(v) && name in services && services[name].lastUsed <= v.start
      modifies services[name], set c | c in services[name].connections
      ensures Valid()
      ensures v.start <= services[name].lastUsed <= v.end
      ensures Usage() == old(Usage())[name := services[name].lastUsed]
      ensures services[name].Served(strategy, maxConnsPerService, v.early, v.late, v.created, conn)
      ensures conn != null ==> conn in services[name].connections && !conn.shutdown
      ensures ShutUnless(old(services[name].connections), services[name].connections)
      ensures OnlyTouched(name)
    {
      conn := ServeOnly(name, v);
      UsageStamped(name);
    }

    /** The same for a service without connections. */
    method ServeEmpty(name: string, v: Visit) returns (conn: PooledConnection?)
      requires Valid() && Ordered(v) && name in services && services[name].lastUsed <= v.start
      requires services[name].connections == []
      modifies services[name]
      ensures Valid() && name in services && v.start <= services[name].lastUsed <= v.end
      ensures Usage() == old(Usage())[name := services[name].lastUsed]
      ensures (conn == null <==> v.created.None?) && (conn != null ==> fresh(conn) && conn.id == v.created.value && !conn.shutdown)
      ensures services[name].connections == if conn == null then [] else [conn]
      ensures forall n | n in services && n != name :: Same(n)
    {
      services[name].NothingToReuse(strategy, maxConnsPerService, v.early, v.late);
      conn := Serve(name, v);
    }

    /** A service is added and asked for its first connection. */
    method AddAndServe(name: string, v: Visit) returns (conn: PooledConnection?)
      requires Valid() && Ordered(v) && name !in services
      modifies this`services
      ensures Valid() && name in services && services == old(services)[name := services[name]]
      ensures v.start <= services[name].lastUsed <= v.end && fresh(services[name])
      ensures Usage() == old(Usage())[name := services[name].lastUsed]
      ensures (conn == null <==> v.created.None?) && (conn != null ==> fresh(conn) && conn.id == v.created.value && !conn.shutdown)
      ensures services[name].connections == if conn == null then [] else [conn]
      ensures forall n | n in old(services) :: Same(n)
    {
      AddService(name, v.start);
      conn := ServeEmpty(name, v);
      UsageAdded(name);
    }

    /** A request for a service that is not in the map: after making room for it. */
    method ServeMissing(name: string, v: Visit) returns (conn: PooledConnection?, evicted: string)
      requires Valid() && enabled && Ordered(v) && name !in services
      requires forall n :: n in v.order <==> n in services
      modifies this`services, Pools()`connections, (set n, c | n in services && c in services[n].connections :: c)`shutdown
      ensures Valid() && name in services && v.start <= services[name].lastUsed <= v.end && fresh(services[name])
      ensures evicted == if |old(services)| < maxServices then "" else Lru.Scan(v.order, old(Usage()))
      ensures Usage() == Stamped(old(Usage()), name, evicted, services[name].lastUsed)
      ensures forall n | n in old(services) && n !in services :: n == evicted != ""
      ensures evicted != "" ==> evicted in old(services) && Shut(old(services[evicted].connections))
      ensures OnlyTouched(name)
      ensures (conn == null <==> v.created.None?) && (conn != null ==> fresh(conn) && conn.id == v.created.value && !conn.shutdown)
      ensures services[name].connections == if conn == null then [] else [conn]
    {
      evicted := MakeRoom(v.order);
      conn := AddAndServe(name, v);
    }

    /** What createFunc yields, kept in no pool. */
    method Unpooled(v: Visit) returns (conn: PooledConnection?)
      ensures (conn == null <==> v.created.None?) && (conn != null ==> conn.id == v.created.value && !conn.shutdown)
    {
      conn := null;
      if v.created.Some? {
        conn := new PooledConnection(v.created.value, v.end);
      }
    }

    /** What a pooled request has done: a known service hands out what its own pool decides, a
        new one what has been created, and the usage map has seen one recency-cache request. */
    twostate predicate Answered(name: string, v: Visit, new conn: PooledConnection?)
      reads Footprint(), conn
    {
      && OnlyTouched(name) && v.start <= services[name].lastUsed <= v.end
      && (conn != null ==> conn in services[name].connections && !conn.shutdown)
      && (if name in old(services) then
            && services == old(services)
            && services[name].Served(strategy, maxConnsPerService, v.early, v.late, v.created, conn)
          else
            && services[name].connections == (if conn == null then [] else [conn])
            && (conn == null <==> v.created.None?) && (conn != null ==> conn.id == v.created.value))
      && (!Lru.EmptyNameHides(old(Usage())) ==>
            Lru.Request(maxServices, old(Usage()), name, services[name].lastUsed, Usage()))
    }

    /** A request for a service that is in the map. */
    method GetKnown(name: string, v: Visit) returns (conn: PooledConnection?)
      requires Valid() && enabled && Ordered(v) && ClockAhead(v.start) && name in services
      modifies Footprint()
      ensures Valid() && Answered(name, v, conn)
      ensures ShutUnless(old(services[name].connections), services[name].connections)
    {
      assert forall c | c in services[name].connections :: c in Footprint();
      conn := Serve(name, v);
    }

    /** A request for one that is not. */
    method GetMissing(name: string, v: Visit) returns (conn: PooledConnection?)
      requires Valid() && enabled && Ordered(v) && ClockAhead(v.start) && name !in services
      requires forall n :: n in v.order <==> n in services
      modifies Footprint()
      ensures Valid() && Answered(name, v, conn)
      ensures forall n | n in old(services) && n !in services :: Shut(old(services[n].connections))
    {
      var evicted;
      conn, evicted := ServeMissing(name, v);
      StampIsRequest(maxServices, v.order, old(Usage()), name, evicted, services[name].lastUsed, Usage());
    }

    /** One request. Without pooling a connection is simply made. */
    method GetConnection(name: string, v: Visit) returns (conn: PooledConnection?)
      requires Valid() && Ordered(v) && ClockAhead(v.start)
      requires forall n :: n in v.order <==> n in services
      modifies Footprint()
      ensures Valid()
      ensures !enabled ==>
        && services == old(services) && (forall n | n in services :: Same(n))
        && (conn == null <==> v.created.None?) && (conn != null ==> conn.id == v.created.value && !conn.shutdown)
      ensures enabled ==> Answered(name, v, conn)
      ensures forall n | n in old(services) && n !in services :: Shut(old(services[n].connections))
      ensures enabled && name in old(services) ==> ShutUnless(old(services[name].connections), services[name].connections)
    {
      if !enabled {
        conn := Unpooled(v);
      } else if name in services {
        conn := GetKnown(name, v);
      } else {
        conn := GetMissing(name, v);
      }
    }

    /** The services are exactly the most recently requested distinct names of `calls`. */
    ghost predicate RecencyExact(calls: seq<Lru.Call>)
      reads this, Pools()
    {
      "" !in services && Lru.HoldsRecent(maxServices, Usage(), calls)
    }

    /** What GetConnection ensures is enough for the agreement to survive every request with a
        nonempty name, whether or not the creation succeeds. `next` is the history so far and
        the name requested. */
    twostate lemma RecencySurvives(next: (seq<Lru.Call>, string))
      requires old(RecencyExact(next.0)) && next.1 != "" && next.1 in services
      requires forall n | n in old(services) :: old(services[n].lastUsed) < services[next.1].lastUsed
      requires Lru.Request(maxServices, old(Usage()), next.1, services[next.1].lastUsed, Usage())
      ensures RecencyExact(next.0 + [Lru.Call(next.1, services[next.1].lastUsed)]) && |services| <= Lru.Limit(maxServices)
    {
      var (calls, name) := next;
      Lru.RecencyStep(maxServices, old(Usage()), calls, Lru.Call(name, services[name].lastUsed), Usage());
      assert "" !in Usage();
    }

    /** A request leaves nothing in the pool but what was there and what is new. */
    twostate lemma FootprintGrows(name: string)
      requires OnlyTouched(name)
      ensures fresh(Footprint() - old(Footprint()))
    {
      forall n | n in services ensures services[n] in old(Pools()) || fresh(services[n]) {
        assert n in old(services) || n == name;
      }
      forall n, c | n in services && c in services[n].connections ensures fresh(c) || c in old(Footprint()) {
        assert n in old(services) || n == name;
      }
    }

    /** What leaves the pool is closed. */
    twostate lemma UnlistedIsShut(name: string)
      requires OnlyTouched(name)
      requires forall n | n in old(services) && n !in services :: Shut(old(services[n].connections))
      requires name in old(services) ==> ShutUnless(old(services[name].connections), services[name].connections)
      ensures forall c | c in old(Listed()) && c !in Listed() :: c.shutdown
    {
    }

    twostate lemma ClockMoves(next: (string, int))
      requires OnlyTouched(next.0) && services[next.0].lastUsed <= next.1
      requires forall n | n in old(services) :: old(services[n].lastUsed) <= next.1
      ensures UsedBy(next.1)
    {
    }

    /** Some order in which the map happens to be iterated. */
    method IterationOrder() returns (order: seq<string>)
      ensures forall n :: n in order <==> n in services
    {
      order := [];
      var left := services.Keys;
      while left != {}
        invariant forall n :: n in services <==> n in order || n in left
        decreases |left|
      {
        var n :| n in left;
        order, left := order + [n], left - {n};
      }
    }

    /** A pooled request, with the map iterated in some order, and what it means for the map. */
    method Ask(name: string, v: Visit) returns (conn: PooledConnection?)
      requires Valid() && enabled && Ordered(v) && ClockAhead(v.start)
      modifies Footprint()
      ensures Valid()
      ensures name in services && v.start <= services[name].lastUsed <= v.end
      ensures !Lru.EmptyNameHides(old(Usage())) ==>
                Lru.Request(maxServices, old(Usage()), name, services[name].lastUsed, Usage())
      ensures forall n | n in old(services) && n !in services :: Shut(old(services[n].connections))
      ensures name in old(services) ==> ShutUnless(old(services[name].connections), services[name].connections)
      ensures OnlyTouched(name)
    {
      var order := IterationOrder();
      assert Usage() == old(Usage());
      conn := GetConnection(name, v.(order := order));
    }

    /** Of the connections `ever` listed each is still listed or closed. */
    ghost predicate Accounted(ever: set<PooledConnection>)
      reads Footprint(), ever
    {
      Listed() <= ever && forall c | c in ever :: c in Listed() || c.shutdown
    }

    twostate lemma StaysAccounted(ever: set<PooledConnection>)
      requires old(Accounted(ever)) && forall c | c in old(Listed()) && c !in Listed() :: c.shutdown
      requires forall c | c in ever && c !in old(Listed()) :: c.shutdown == old(c.shutdown)
      ensures Accounted(ever + Listed())
    {
    }

    lemma OutsideFootprint(ever: set<PooledConnection>)
      ensures forall c | c in ever && c !in Listed() :: c !in Footprint()
    {
    }

    /** A pooled request keeps the account of all that has `ever` been listed. */
    method AskAccounted(name: string, v: Visit, ghost ever: set<PooledConnection>) returns (conn: PooledConnection?)
      requires Valid() && enabled && Ordered(v) && ClockAhead(v.start) && Accounted(ever)
      modifies Footprint()
      ensures Valid() && name in services && v.start <= services[name].lastUsed <= v.end
      ensures !Lru.EmptyNameHides(old(Usage())) ==>
                Lru.Request(maxServices, old(Usage()), name, services[name].lastUsed, Usage())
      ensures OnlyTouched(name) && Accounted(ever + Listed())
    {
      OutsideFootprint(ever);
      conn := Ask(name, v);
      UnlistedIsShut(name);
      StaysAccounted(ever);
    }

    /** One request of a run. `calls` is the history so far, `ever` all that has been listed. */
    method Request(name: string, v: Visit, ghost calls: seq<Lru.Call>, ghost ever: set<PooledConnection>)
      returns (conn: PooledConnection?)
      requires Valid() && enabled && Ordered(v) && ClockAhead(v.start) && name != "" && RecencyExact(calls) && Accounted(ever)
      modifies Footprint()
      ensures Valid() && fresh(Footprint() - old(Footprint())) && name in services
      ensures v.start <= services[name].lastUsed <= v.end && UsedBy(v.end)
      ensures RecencyExact(calls + [Lru.Call(name, services[name].lastUsed)]) && |services| <= Lru.Limit(maxServices)
      ensures Accounted(ever + Listed())
    {
      conn := AskAccounted(name, v, ever);
      FootprintGrows(name);
      ClockMoves((name, v.end));
      RecencySurvives((calls, name));
    }

    /** No service was used after `now`. */
    ghost predicate UsedBy(now: int)
      reads this, Pools()
    {
      forall n | n in services :: services[n].lastUsed <= now
    }

    /** The pool as a sequence of requests leaves it: `calls` are their records. */
    ghost predicate Left(requests: seq<(string, Visit)>, calls: seq<Lru.Call>)
      reads this, Pools()
    {
      && RecencyExact(calls) && |services| <= Lru.Limit(maxServices) && Answers(calls, requests)
      && (if requests == [] then services == map[] else UsedBy(requests[|requests| - 1].1.end))
    }

    /** The last of a sequence of requests. */
    method RequestLast(requests: seq<(string, Visit)>, ghost calls: seq<Lru.Call>, ghost ever: set<PooledConnection>)
      returns (ghost calls': seq<Lru.Call>)
      requires Valid() && enabled && Sequential(requests) && requests != []
      requires Left(requests[..|requests| - 1], calls) && Accounted(ever)
      modifies Footprint()
      ensures Valid() && fresh(Footprint() - old(Footprint())) && Left(requests, calls') && Accounted(ever + Listed())
    {
      var (name, v) := requests[|requests| - 1];
      SequentialUpTo(requests);
      assert ClockAhead(v.start);
      var _ := Request(name, v, calls, ever);
      calls' := calls + [Lru.Call(name, services[name].lastUsed)];
      AnswersExtend(calls, requests, services[name].lastUsed);
    }

    /** A new pool serves a sequence of requests: it is left with exactly the most recently
        requested distinct names, as many as fit in max(1, maxServices), and every connection it
        ever listed is still listed or closed. */
    static method Session(maxServices: int, maxConnsPerService: int, idleTimeout: int, strategy: Strategy,
                          requests: seq<(string, Visit)>)
      returns (pool: ConnectionPool, ghost calls: seq<Lru.Call>, ghost ever: set<PooledConnection>)
      requires Sequential(requests)
      ensures fresh(pool.Footprint()) && pool.Valid() && pool.enabled && pool.maxServices == maxServices
      ensures pool.Left(requests, calls) && pool.Accounted(ever)
      decreases |requests|
    {
      if requests == [] {
        pool := new ConnectionPool(maxServices, maxConnsPerService, idleTimeout, true, strategy);
        calls, ever := [], {};
      } else {
        SequentialUpTo(requests);
        pool, calls, ever := Session(maxServices, maxConnsPerService, idleTimeout, strategy, requests[..|requests| - 1]);
        ghost var before := pool.Footprint();
        assert fresh(before);
        calls := pool.RequestLast(requests, calls, ever);
        ever := ever + pool.Listed();
        assert fresh(pool.Footprint() - before);
      }
    }

    // ----- Idle cleanup -----------------------------------------------------------------------

    ghost function Recently(conns: seq<PooledConnection>, now: int): set<PooledConnection>
      reads (set c | c in conns)`lastUsed
    {
      set c | c in conns && now - c.lastUsed <= idleTimeout
    }

    /** `kept` are those of `conns` used within the timeout, in their order. */
    ghost predicate KeptRecent(kept: seq<PooledConnection>, conns: seq<PooledConnection>, now: int)
      reads (set c | c in conns)`lastUsed
    {
      && KeepsOrder(kept, conns) && (forall c | c in kept :: c in conns)
      && forall c | c in conns :: c in kept <==> now - c.lastUsed <= idleTimeout
    }

    lemma FilteredIsKeptRecent(conns: seq<PooledConnection>, now: int)
      ensures KeptRecent(Filter(conns, Recently(conns, now)), conns, now)
    {
      FilterKeeps(conns, Recently(conns, now));
      FilterKeepsOrder(conns, Recently(conns, now));
    }

    /** Splits a service's connections into those to keep and those idle too long. */
    method Partition(conns: seq<PooledConnection>, now: int) returns (active: seq<PooledConnection>, idle: seq<PooledConnection>)
      ensures active == Filter(conns, Recently(conns, now)) && KeptRecent(active, conns, now)
      ensures forall c :: c in idle <==> c in conns && now - c.lastUsed > idleTimeout
    {
      active, idle := [], [];
      for i := 0 to |conns|
        invariant active == Filter(conns[..i], Recently(conns, now))
        invariant forall c :: c in idle <==> c in conns[..i] && c !in Recently(conns, now)
      {
        assert conns[..i + 1][..i] == conns[..i];
        if now - conns[i].lastUsed > idleTimeout {
          idle := idle + [conns[i]];
        } else {
          active := active + [conns[i]];
        }
      }
      assert conns[..|conns|] == conns;
      FilteredIsKeptRecent(conns, now);
    }

    predicate IdlePool(n: string, now: int)
      requires n in services
      reads this, Pools()
    {
      now - services[n].lastUsed > idleTimeout
    }

    /** The connections of the services `names` that have been idle too long. */
    ghost function IdleOf(names: set<string>, now: int): set<PooledConnection>
      reads Footprint()
    {
      set n, c | n in names && n in services && c in services[n].connections && now - c.lastUsed > idleTimeout :: c
    }

    /** What the sweep decides for one service. An idle service has only idle connections. */
    method Inspect(pool: ServiceConnectionPool, now: int)
      returns (gone: bool, active: seq<PooledConnection>, idle: seq<PooledConnection>)
      requires pool.Valid()
      ensures gone <==> now - pool.lastUsed > idleTimeout
      ensures !gone ==> active == Filter(pool.connections, Recently(pool.connections, now))
      ensures forall c :: c in idle <==> c in pool.connections && now - c.lastUsed > idleTimeout
    {
      gone, active, idle := now - pool.lastUsed > idleTimeout, [], pool.connections;
      if !gone {
        active, idle := Partition(pool.connections, now);
      }
    }

    /** The sweep's decisions for the services `names`. */
    ghost predicate Decided(names: set<string>, now: int, remove: set<string>, close: seq<PooledConnection>,
                            keep: map<string, seq<PooledConnection>>)
      requires names <= services.Keys
      reads this, Footprint()
    {
      && remove == (set n | n in names && IdlePool(n, now))
      && keep.Keys == names - remove
      && (forall n | n in keep :: keep[n] == Filter(services[n].connections, Recently(services[n].connections, now)))
      && (forall c | c in close :: c in IdleOf(names, now))
      && (forall n, c | n in names && c in services[n].connections && now - c.lastUsed > idleTimeout :: c in close)
    }

    /** The first phase, under the locks: which pools go, which connections are closed, and
        what the remaining pools keep. */
    method CollectIdle(now: int, order: seq<string>)
      returns (remove: set<string>, close: seq<PooledConnection>, keep: map<string, seq<PooledConnection>>)
      requires Valid() && forall n :: n in order <==> n in services
      ensures Decided(services.Keys, now, remove, close, keep)
    {
      remove, close, keep := {}, [], map[];
      ghost var seen := {};
      for i := 0 to |order|
        invariant seen <= services.Keys && forall j | 0 <= j < i :: order[j] in seen
        invariant Decided(seen, now, remove, close, keep)
      {
        var gone, active, idle := Inspect(services[order[i]], now);
        DecideNext(seen, order[i], now, remove, close, keep, gone, active, idle);
        close := close + idle;
        if gone {
          remove := remove + {order[i]};
        } else {
          keep := keep[order[i] := active];
        }
        seen := seen + {order[i]};
      }
      assert seen == services.Keys;
    }

    lemma DecidedKeeps(now: int, remove: set<string>, close: seq<PooledConnection>, keep: map<string, seq<PooledConnection>>)
      requires Valid() && Decided(services.Keys, now, remove, close, keep)
      ensures forall n | n in keep ::
        SubList(keep[n], services[n].connections) && KeptRecent(keep[n], services[n].connections, now)
    {
      forall n | n in keep
        ensures SubList(keep[n], services[n].connections) && KeptRecent(keep[n], services[n].connections, now)
      {
        FilterKeeps(services[n].connections, Recently(services[n].connections, now));
        FilteredIsKeptRecent(services[n].connections, now);
      }
    }

    lemma DecideNext(names: set<string>, name: string, now: int, remove: set<string>, close: seq<PooledConnection>,
                     keep: map<string, seq<PooledConnection>>, gone: bool, active: seq<PooledConnection>, idle: seq<PooledConnection>)
      requires names <= services.Keys && name in services && Decided(names, now, remove, close, keep)
      requires gone <==> IdlePool(name, now)
      requires !gone ==> active == Filter(services[name].connections, Recently(services[name].connections, now))
      requires forall c :: c in idle <==> c in services[name].connections && now - c.lastUsed > idleTimeout
      ensures Decided(names + {name}, now, if gone then remove + {name} else remove, close + idle,
                      if gone then keep else keep[name := active])
    {
    }

    ghost predicate SubList(list: seq<PooledConnection>, conns: seq<PooledConnection>) {
      Distinct(list) && forall c | c in list :: c in conns
    }

    twostate lemma ShrinkKeepsValid(keep: map<string, seq<PooledConnection>>)
      requires old(Valid()) && services == old(services)
      requires forall n | n in keep && n in services :: SubList(keep[n], old(services[n].connections))
      requires forall n | n in services ::
        services[n].connections == if n in keep then keep[n] else old(services[n].connections)
      requires forall n | n in services :: services[n].lastUsed == old(services[n].lastUsed)
      requires forall n, c | n in services && c in old(services[n].connections) :: c.lastUsed == old(c.lastUsed)
      ensures Valid()
    {
      forall n | n in services ensures SubList(services[n].connections, old(services[n].connections)) {
      }
    }

    method SetList(name: string, list: seq<PooledConnection>)
      requires name in services && forall n | n in services && n != name :: services[n] != services[name]
      modifies {services[name]}`connections
      ensures services[name].connections == list
      ensures forall n | n in services && n != name :: Same(n)
    {
      services[name].connections := list;
    }

    /** Writes the kept lists back. */
    method WriteLists(order: seq<string>, keep: map<string, seq<PooledConnection>>)
      requires forall a, b | a in services && b in services && a != b :: services[a] != services[b]
      requires forall n :: n in order <==> n in services
      modifies Pools()`connections
      ensures forall n | n in services ::
        services[n].connections == if n in keep then keep[n] else old(services[n].connections)
    {
      ghost var seen := {};
      for i := 0 to |order|
        invariant forall j | 0 <= j < i :: order[j] in seen
        invariant forall n | n in services ::
          services[n].connections == if n in seen && n in keep then keep[n] else old(services[n].connections)
      {
        if order[i] in keep {
          SetList(order[i], keep[order[i]]);
        }
        seen := seen + {order[i]};
      }
    }

    method DropServices(remove: set<string>)
      requires Valid()
      modifies this`services
      ensures Valid() && services == old(services) - remove
    {
      services := services - remove;
    }

    /** The last phase: writes the kept lists back and drops the idle services. */
    method WriteBack(order: seq<string>, remove: set<string>, keep: map<string, seq<PooledConnection>>)
      requires Valid() && (forall n :: n in order <==> n in services) && keep.Keys == services.Keys - remove
      requires forall n | n in keep :: SubList(keep[n], services[n].connections)
      modifies this`services, Pools()`connections
      ensures Valid() && services == old(services) - remove
      ensures forall n | n in services :: services[n].connections == keep[n]
    {
      WriteLists(order, keep);
      ShrinkKeepsValid(keep);
      DropServices(remove);
    }

    /** The first two phases: collects under the locks and closes after them. */
    method CloseIdle(now: int, order: seq<string>) returns (remove: set<string>, keep: map<string, seq<PooledConnection>>)
      requires Valid() && forall n :: n in order <==> n in services
      modifies (set n, c | n in services && c in services[n].connections :: c)`shutdown
      ensures Valid()
      ensures remove == set n | n in services && now - services[n].lastUsed > idleTimeout
      ensures keep.Keys == services.Keys - remove
      ensures forall n | n in keep ::
        && keep[n] == Filter(services[n].connections, old(Recently(services[n].connections, now)))
        && SubList(keep[n], services[n].connections) && KeptRecent(keep[n], services[n].connections, now)
      ensures forall n, c | n in services && c in services[n].connections ::
                c.shutdown <==> old(c.shutdown) || now - c.lastUsed > idleTimeout
    {
      var close;
      remove, close, keep := CollectIdle(now, order);
      DecidedKeeps(now, remove, close, keep);
      ServiceConnectionPool.ClosePooledConnections(close);
    }

    /** One idle sweep: services idle past the timeout go, the others lose exactly their idle
        connections and keep the rest in order, and the connections closed are exactly those
        idle past the timeout. */
    method CleanupIdleConnections(now: int, order: seq<string>)
      requires Valid() && forall n :: n in order <==> n in services
      modifies this`services, Pools()`connections, (set n, c | n in services && c in services[n].connections :: c)`shutdown
      ensures Valid()
      ensures services == old(services) - set n | n in old(services) && now - old(services[n].lastUsed) > idleTimeout
      ensures forall n | n in services ::
        && services[n].connections == Filter(old(services[n].connections), old(Recently(services[n].connections, now)))
        && KeptRecent(services[n].connections, old(services[n].connections), now)
      ensures forall n, c | n in old(services) && c in old(services[n].connections) ::
                c.shutdown <==> old(c.shutdown) || now - old(c.lastUsed) > idleTimeout
    {
      var remove, keep := CloseIdle(now, order);
      WriteBack(order, remove, keep);
    }

    /** Closes every service and empties the map. */
    method CloseAll(order: seq<string>)
      requires Valid() && forall n :: n in order <==> n in services
      modifies this`services, Pools()`connections, (set n, c | n in services && c in services[n].connections :: c)`shutdown
      ensures Valid() && services == map[]
      ensures forall n, c | n in old(services) && c in old(services[n].connections) :: c.shutdown
    {
      for i := 0 to |order|
        invariant services == old(services) && Valid()
        invariant forall n | n in services ::
          services[n].connections == if n in order[..i] then [] else old(services[n].connections)
        invariant forall n, c | n in order[..i] && n in services && c in old(services[n].connections) :: c.shutdown
      {
        assert order[..i + 1] == order[..i] + [order[i]];
        CloseService(order[i]);
      }
      assert order[..|order|] == order;
      services := map[];
    }
  }

  /** The usage map after a new service has been added and stamped, or an old one stamped. */
  function Stamped(u: Lru.Usage, name: string, evicted: string, t: int): Lru.Usage {
    (if name in u || evicted == "" then u else u - {evicted})[name := t]
  }

  /** Evicting what the scan finds, adding and stamping is a request on the usage map. */
  lemma StampIsRequest(maxServices: int, order: seq<string>, u: Lru.Usage, name: string,
                       evicted: string, t: int, u': Lru.Usage)
    requires forall n :: n in order <==> n in u
    requires evicted == if name in u || |u| < maxServices then "" else Lru.Scan(order, u)
    requires u' == Stamped(u, name, evicted, t)
    ensures !Lru.EmptyNameHides(u) ==> Lru.Request(maxServices, u, name, t, u')
  {
    if !Lru.EmptyNameHides(u) && name !in u {
      Lru.ScanIsLru(order, u);
    }
  }
}
