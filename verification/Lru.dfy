/** The service map as a recency cache: what any sequence of requests leaves in it. */
module Lru {
  import opened Basics

  /** Each service in the map, with the instant it was last used. */
  type Usage = map<string, int>

  predicate IsOldest(u: Usage, name: string) {
    name in u && forall n | n in u :: u[name] <= u[n]
  }

  /** The scan for the least recently used name. An empty name doubles as "none yet". */
  function ScanFrom(order: seq<string>, u: Usage, oldest: string, oldestTime: int): string
    requires forall n | n in order :: n in u
  {
    if order == [] then oldest
    else if oldest == "" || u[order[0]] < oldestTime then ScanFrom(order[1..], u, order[0], u[order[0]])
    else ScanFrom(order[1..], u, oldest, oldestTime)
  }

  function Scan(order: seq<string>, u: Usage): string
    requires forall n | n in order :: n in u
  {
    ScanFrom(order, u, "", 0)
  }

  /** The service with the empty name, if there is one, is strictly the least recently used. */
  predicate EmptyNameHides(u: Usage) {
    "" in u && forall n | n in u && n != "" :: u[""] < u[n]
  }

  /** The rest of the scan ends with a name: it has one already or will meet one, and nothing
      that the empty name would displace is lost. */
  ghost predicate WillFind(order: seq<string>, u: Usage, oldest: string, oldestTime: int)
    requires forall n | n in order :: n in u
  {
    && (order != [] || oldest != "")
    && ("" in order ==>
          || (oldest != "" && oldestTime <= u[""])
          || exists w | w in order :: w != "" && u[w] <= u[""])
  }

  lemma WillStillFind(order: seq<string>, u: Usage, oldest: string, oldestTime: int)
    requires order != [] && (forall n | n in order :: n in u) && WillFind(order, u, oldest, oldestTime)
    ensures var n, rest := order[0], order[1..];
      if oldest == "" || u[n] < oldestTime then WillFind(rest, u, n, u[n]) else WillFind(rest, u, oldest, oldestTime)
  {
    assert order == [order[0]] + order[1..];
    if "" in order && !(oldest != "" && oldestTime <= u[""]) {
      var w :| w in order && w != "" && u[w] <= u[""];
      assert w == order[0] || w in order[1..];
    }
  }

  lemma {:induction false} ScanFindsOldest(order: seq<string>, u: Usage, oldest: string, oldestTime: int)
    requires (forall n | n in order :: n in u) && WillFind(order, u, oldest, oldestTime)
    requires oldest != "" ==> oldest in u && u[oldest] == oldestTime
    ensures var r := ScanFrom(order, u, oldest, oldestTime);
      && r != "" && r in u
      && (forall n | n in order :: u[r] <= u[n])
      && (oldest != "" ==> u[r] <= oldestTime)
    decreases |order|
  {
    if order == [] {
    } else {
      var n, rest := order[0], order[1..];
      assert order == [n] + rest;
      WillStillFind(order, u, oldest, oldestTime);
      if oldest == "" || u[n] < oldestTime {
        ScanFindsOldest(rest, u, n, u[n]);
        if n == "" {
          var w :| w in order && w != "" && u[w] <= u[""];
          assert w in rest;
        }
      } else {
        ScanFindsOldest(rest, u, oldest, oldestTime);
      }
    }
  }

  /** Unless the empty name hides it, the scan finds a least recently used service, whatever
      the iteration order. */
  lemma ScanIsLru(order: seq<string>, u: Usage)
    requires (forall n :: n in order <==> n in u) && !EmptyNameHides(u)
    ensures Scan(order, u) == "" <==> u == map[]
    ensures Scan(order, u) != "" ==> IsOldest(u, Scan(order, u))
  {
    if order == [] {
      assert u.Keys == {};
    } else {
      assert order[0] in u;
      ScanFindsOldest(order, u, "", 0);
    }
  }

  lemma {:induction false} ScanKeepsFirst(order: seq<string>, u: Usage, oldest: string, oldestTime: int)
    requires (forall n | n in order :: n in u && n != "") && oldest != "" && oldest in u && u[oldest] == oldestTime
    ensures var r := ScanFrom(order, u, oldest, oldestTime);
      r == oldest || exists i | 0 <= i < |order| :: (
        && order[i] == r && u[r] < oldestTime && forall j | 0 <= j < i :: u[r] < u[order[j]])
    decreases |order|
  {
    if order == [] {
    } else {
      var n, rest := order[0], order[1..];
      assert order == [n] + rest;
      var r := ScanFrom(order, u, oldest, oldestTime);
      if u[n] < oldestTime {
        ScanKeepsFirst(rest, u, n, u[n]);
        if r == n {
          assert order[0] == r;
        } else {
          var i :| 0 <= i < |rest| && rest[i] == r && u[r] < u[n] && forall j | 0 <= j < i :: u[r] < u[rest[j]];
          assert order[i + 1] == r;
        }
      } else {
        ScanKeepsFirst(rest, u, oldest, oldestTime);
        if r != oldest {
          var i :| 0 <= i < |rest| && rest[i] == r && u[r] < oldestTime && forall j | 0 <= j < i :: u[r] < u[rest[j]];
          assert order[i + 1] == r;
        }
      }
    }
  }

  /** Of several services used equally long ago it finds the one it meets first. */
  lemma ScanTakesFirst(order: seq<string>, u: Usage)
    requires order != [] && forall n | n in order :: n in u && n != ""
    ensures exists i | 0 <= i < |order| :: (
      order[i] == Scan(order, u) && forall j | 0 <= j < i :: u[order[i]] < u[order[j]])
  {
    var n, rest := order[0], order[1..];
    assert order == [n] + rest;
    ScanKeepsFirst(rest, u, n, u[n]);
    var r := Scan(order, u);
    if r == n {
      assert order[0] == r;
    } else {
      var i :| 0 <= i < |rest| && rest[i] == r && u[r] < u[n] && forall j | 0 <= j < i :: u[r] < u[rest[j]];
      assert order[i + 1] == r;
    }
  }

  /** If it does hide it, the scan finds nothing when it meets the empty name last. */
  lemma ScanMissesAll(order: seq<string>, u: Usage)
    requires EmptyNameHides(u) && order != [] && order[|order| - 1] == ""
    requires forall n | n in order :: n in u
    ensures Scan(order, u) == ""
  {
    MissesFrom(order, u, "", 0);
  }

  lemma {:induction false} MissesFrom(order: seq<string>, u: Usage, oldest: string, oldestTime: int)
    requires EmptyNameHides(u) && order != [] && order[|order| - 1] == ""
    requires forall n | n in order :: n in u
    requires oldest != "" ==> oldest in u && u[oldest] == oldestTime
    ensures ScanFrom(order, u, oldest, oldestTime) == ""
    decreases |order|
  {
    var n, rest := order[0], order[1..];
    if rest != [] {
      if oldest == "" || u[n] < oldestTime {
        MissesFrom(rest, u, n, u[n]);
      } else {
        MissesFrom(rest, u, oldest, oldestTime);
      }
    }
  }

  lemma {:induction false} Listing(names: set<string>) returns (order: seq<string>)
    ensures forall n :: n in order <==> n in names
  {
    order := [];
    if n :| n in names {
      order := Listing(names - {n});
      order := order + [n];
    }
  }

  /** Every iteration order of a nonempty map leads the scan to a least recently used service
      exactly when the empty name does not hide it. */
  lemma ScanIsLruExactlyWhen(u: Usage)
    requires u != map[]
    ensures (forall order: seq<string> | (forall n :: n in order <==> n in u) ::
               Scan(order, u) != "" && IsOldest(u, Scan(order, u)))
       <==> !EmptyNameHides(u)
  {
    if EmptyNameHides(u) {
      var order := Listing(u.Keys - {""});
      ScanMissesAll(order + [""], u);
    } else {
      forall order: seq<string> | forall n :: n in order <==> n in u
        ensures Scan(order, u) != "" && IsOldest(u, Scan(order, u))
      {
        ScanIsLru(order, u);
      }
    }
  }

  /** One request: an existing service is touched; a new one is added, after evicting a least
      recently used one if the map is full and not empty. */
  ghost predicate Request(maxServices: int, u: Usage, name: string, now: int, u': Usage) {
    if name in u || |u| < maxServices || u == map[] then u' == u[name := now]
    else exists e :: IsOldest(u, e) && u' == (u - {e})[name := now]
  }

  datatype Call = Call(name: string, at: int)

  /** A sequence of non-overlapping requests on an initially empty map. */
  ghost predicate Run(maxServices: int, calls: seq<Call>, maps: seq<Usage>) {
    && |maps| == |calls| + 1 && maps[0] == map[]
    && (forall i, j | 0 <= i < j < |calls| :: calls[i].at < calls[j].at)
    && forall i | 0 <= i < |calls| :: Request(maxServices, maps[i], calls[i].name, calls[i].at, maps[i + 1])
  }

  function Without(s: seq<string>, name: string): seq<string> {
    if s == [] then []
    else (if s[0] == name then [] else [s[0]]) + Without(s[1..], name)
  }

  /** The distinct names requested, most recently requested first. */
  function Recent(calls: seq<Call>): seq<string> {
    if calls == [] then []
    else [calls[|calls| - 1].name] + Without(Recent(calls[..|calls| - 1]), calls[|calls| - 1].name)
  }

  function Limit(maxServices: int): nat { if maxServices > 1 then maxServices else 1 }

  function Take(s: seq<string>, n: nat): seq<string> { if |s| <= n then s else s[..n] }

  /** The map holds exactly `s`, in decreasing order of last use. */
  ghost predicate Mirrors(u: Usage, s: seq<string>) {
    && Distinct(s)
    && (forall n :: n in u <==> n in s)
    && (forall i, j | 0 <= i < j < |s| :: u[s[i]] > u[s[j]])
  }

  lemma {:induction false} WithoutAbsent(s: seq<string>, name: string)
    requires name !in s
    ensures Without(s, name) == s
  {
    if s == [] {
    } else {
      WithoutAbsent(s[1..], name);
    }
  }

  lemma {:induction false} WithoutAt(s: seq<string>, name: string, k: nat)
    requires Distinct(s) && k < |s| && s[k] == name
    ensures Without(s, name) == s[..k] + s[k + 1..]
  {
    if k == 0 {
      WithoutAbsent(s[1..], name);
    } else {
      WithoutAt(s[1..], name, k - 1);
      assert s[..k] + s[k + 1..] == [s[0]] + (s[1..][..k - 1] + s[1..][k..]);
    }
  }

  lemma WithoutIs(s: seq<string>, name: string)
    requires Distinct(s)
    ensures Distinct(Without(s, name))
    ensures forall n :: n in Without(s, name) <==> n in s && n != name
  {
    if name in s {
      var k :| 0 <= k < |s| && s[k] == name;
      WithoutAt(s, name, k);
      var r := s[..k] + s[k + 1..];
      forall n ensures n in r <==> n in s && n != name {
        if n in s && n != name {
          var i :| 0 <= i < |s| && s[i] == n;
          assert n == if i < k then r[i] else r[i - 1];
        }
      }
    } else {
      WithoutAbsent(s, name);
    }
  }

  lemma ConsDistinct(x: string, s: seq<string>)
    requires Distinct(s) && x !in s
    ensures Distinct([x] + s)
  {
    var r := [x] + s;
    forall i, j | 0 <= i < j < |r| ensures r[i] != r[j] {
      assert r[j] == s[j - 1] && r[j] in s;
    }
  }

  lemma {:induction false} RecentDistinct(calls: seq<Call>)
    ensures Distinct(Recent(calls))
  {
    if calls == [] {
    } else {
      RecentDistinct(calls[..|calls| - 1]);
      WithoutIs(Recent(calls[..|calls| - 1]), calls[|calls| - 1].name);
      ConsDistinct(calls[|calls| - 1].name, Without(Recent(calls[..|calls| - 1]), calls[|calls| - 1].name));
    }
  }

  /** The names in Recent are those requested, and earlier in it means requested later. */
  lemma {:induction false} RecentMeans(calls: seq<Call>, n: string)
    ensures n in Recent(calls) <==> exists i | 0 <= i < |calls| :: calls[i].name == n
  {
    if calls == [] {
    } else {
      var p, name := calls[..|calls| - 1], calls[|calls| - 1].name;
      RecentMeans(p, n);
      RecentDistinct(p);
      WithoutIs(Recent(p), name);
      if n in Recent(p) {
        var i :| 0 <= i < |p| && p[i].name == n;
        assert calls[i].name == n;
      }
      if i :| 0 <= i < |calls| && calls[i].name == n {
        assert i < |p| ==> p[i].name == n;
      }
    }
  }

  /** The last call that requested `n`. */
  predicate LastRequest(calls: seq<Call>, n: string, k: nat) {
    k < |calls| && calls[k].name == n && forall m | k < m < |calls| :: calls[m].name != n
  }

  lemma LastStays(calls: seq<Call>, n: string, k: nat)
    requires calls != [] && calls[|calls| - 1].name != n && LastRequest(calls[..|calls| - 1], n, k)
    ensures LastRequest(calls, n, k)
  {
    var p := calls[..|calls| - 1];
    assert calls[k] == p[k] && forall m | k < m < |p| :: calls[m] == p[m];
  }

  lemma {:induction false} RecentLast(calls: seq<Call>, n: string) returns (k: nat)
    requires n in Recent(calls)
    ensures LastRequest(calls, n, k)
  {
    var last := |calls| - 1;
    if calls[last].name == n {
      k := last;
    } else {
      RecentDistinct(calls[..last]);
      WithoutIs(Recent(calls[..last]), calls[last].name);
      k := RecentLast(calls[..last], n);
      LastStays(calls, n, k);
    }
  }

  /** What stands behind the head was there before, in the same order. */
  lemma BehindHead(calls: seq<Call>, i: nat)
    requires 0 < i < |Recent(calls)|
    ensures calls != [] && Recent(calls)[i] == Without(Recent(calls[..|calls| - 1]), calls[|calls| - 1].name)[i - 1]
    ensures Recent(calls)[i] != calls[|calls| - 1].name
  {
    var older, name := Recent(calls[..|calls| - 1]), calls[|calls| - 1].name;
    RecentDistinct(calls[..|calls| - 1]);
    WithoutIs(older, name);
    assert Without(older, name)[i - 1] in Without(older, name);
  }

  /** Earlier in the list means requested later. */
  lemma {:induction false} RecentOrder(calls: seq<Call>, i: nat, j: nat) returns (a: nat, b: nat)
    requires i < j < |Recent(calls)|
    ensures LastRequest(calls, Recent(calls)[i], a) && LastRequest(calls, Recent(calls)[j], b) && b < a
  {
    BehindHead(calls, j);
    if i == 0 {
      a := |calls| - 1;
      b := RecentLast(calls, Recent(calls)[j]);
    } else {
      BehindHead(calls, i);
      var p := calls[..|calls| - 1];
      var qi, qj := WithoutOrder(Recent(p), calls[|calls| - 1].name, i - 1, j - 1);
      a, b := RecentOrder(p, qi, qj);
      LastStays(calls, Recent(calls)[i], a);
      LastStays(calls, Recent(calls)[j], b);
    }
  }

  /** Where two elements that stay were before. */
  lemma {:induction false} WithoutOrder(s: seq<string>, name: string, i: nat, j: nat) returns (a: nat, b: nat)
    requires i < j < |Without(s, name)|
    ensures a < b < |s| && s[a] == Without(s, name)[i] && s[b] == Without(s, name)[j]
  {
    if s[0] == name {
      a, b := WithoutOrder(s[1..], name, i, j);
      a, b := a + 1, b + 1;
    } else if i > 0 {
      a, b := WithoutOrder(s[1..], name, i - 1, j - 1);
      a, b := a + 1, b + 1;
    } else {
      a := 0;
      b := WithoutFrom(s[1..], name, j - 1);
      b := b + 1;
    }
  }

  lemma {:induction false} WithoutFrom(s: seq<string>, name: string, j: nat) returns (b: nat)
    requires j < |Without(s, name)|
    ensures b < |s| && s[b] == Without(s, name)[j]
  {
    if s[0] == name {
      b := WithoutFrom(s[1..], name, j);
      b := b + 1;
    } else if j == 0 {
      b := 0;
    } else {
      b := WithoutFrom(s[1..], name, j - 1);
      b := b + 1;
    }
  }

  /** What a bounded recency list does on a request. */
  function Touch(s: seq<string>, name: string, limit: nat): seq<string>
    requires limit > 0
  {
    [name] + if name in s then Without(s, name) else Take(s, limit - 1)
  }

  /** Dropping what does not fit at every step equals dropping it once at the end. */
  lemma TouchIsTake(r: seq<string>, name: string, limit: nat)
    requires limit > 0 && Distinct(r)
    ensures Touch(Take(r, limit), name, limit) == Take([name] + Without(r, name), limit)
  {
    TakeCons(name, Without(r, name), limit);
    assert forall k | 0 <= k < |Take(r, limit)| :: Take(r, limit)[k] == r[k];
    if name in Take(r, limit) {
      var k :| 0 <= k < |Take(r, limit)| && Take(r, limit)[k] == name;
      WithoutInTake(r, name, k, limit);
    } else if name in r {
      var k :| 0 <= k < |r| && r[k] == name;
      WithoutAt(r, name, k);
      assert Take(r[..k] + r[k + 1..], limit - 1) == r[..limit - 1];
    } else {
      WithoutAbsent(r, name);
    }
  }

  lemma TakeCons(x: string, w: seq<string>, limit: nat)
    requires limit > 0
    ensures Take([x] + w, limit) == [x] + Take(w, limit - 1)
  {
  }

  lemma WithoutInTake(r: seq<string>, name: string, k: nat, limit: nat)
    requires limit > 0 && Distinct(r) && k < limit && k < |r| && r[k] == name
    ensures Without(Take(r, limit), name) == Take(Without(r, name), limit - 1)
  {
    WithoutAt(r, name, k);
    WithoutAt(Take(r, limit), name, k);
  }

  lemma MirrorSize(u: Usage, s: seq<string>)
    requires Mirrors(u, s)
    ensures |u| == |s| && (u == map[] <==> s == [])
    ensures s != [] ==> forall e | IsOldest(u, e) :: e == s[|s| - 1]
  {
    DistinctSize(s);
    assert u.Keys == Elements(s);
    if s != [] {
      assert s[0] in u;
      forall e | IsOldest(u, e) ensures e == s[|s| - 1] {
        var i :| 0 <= i < |s| && s[i] == e;
        assert s[|s| - 1] in u;
      }
    }
  }

  /** Removing one position keeps the order of the rest. */
  lemma DropKeepsOrder(u: Usage, s: seq<string>, k: nat, i: nat, j: nat)
    requires Mirrors(u, s) && k < |s| && i < j < |s| - 1
    ensures var r := s[..k] + s[k + 1..];
      r[i] in u && r[j] in u && r[i] != s[k] && r[j] != s[k] && u[r[i]] > u[r[j]]
  {
    var r := s[..k] + s[k + 1..];
    assert r[i] == s[if i < k then i else i + 1] && r[j] == s[if j < k then j else j + 1];
  }

  lemma DropAt(u: Usage, s: seq<string>, k: nat)
    requires Mirrors(u, s) && k < |s|
    ensures Mirrors(u - {s[k]}, s[..k] + s[k + 1..])
  {
    WithoutAt(s, s[k], k);
    WithoutIs(s, s[k]);
    var r := s[..k] + s[k + 1..];
    forall i, j | 0 <= i < j < |r| ensures (u - {s[k]})[r[i]] > (u - {s[k]})[r[j]] {
      DropKeepsOrder(u, s, k, i, j);
    }
  }

  lemma TouchExisting(u: Usage, s: seq<string>, name: string, now: int)
    requires Mirrors(u, s) && name in u && forall n | n in u :: u[n] < now
    ensures Mirrors(u[name := now], [name] + Without(s, name))
  {
    var k :| 0 <= k < |s| && s[k] == name;
    WithoutAt(s, name, k);
    DropAt(u, s, k);
    AddNew(u - {name}, Without(s, name), name, now);
    assert (u - {name})[name := now] == u[name := now];
  }

  lemma AddNew(u: Usage, s: seq<string>, name: string, now: int)
    requires Mirrors(u, s) && name !in u && forall n | n in u :: u[n] < now
    ensures Mirrors(u[name := now], [name] + s)
  {
    var r := [name] + s;
    ConsDistinct(name, s);
    forall i, j | 0 <= i < j < |r| ensures u[name := now][r[i]] > u[name := now][r[j]] {
      assert r[j] == s[j - 1] && (i > 0 ==> r[i] == s[i - 1]);
    }
  }

  lemma EvictOldest(u: Usage, s: seq<string>, e: string, name: string, now: int)
    requires Mirrors(u, s) && s != [] && e == s[|s| - 1] && name !in u && forall n | n in u :: u[n] < now
    ensures Mirrors((u - {e})[name := now], [name] + s[..|s| - 1])
  {
    DropAt(u, s, |s| - 1);
    assert s[..|s| - 1] + s[|s|..] == s[..|s| - 1];
    AddNew(u - {e}, s[..|s| - 1], name, now);
  }

  lemma TouchForms(s: seq<string>, name: string, limit: nat)
    requires 0 < limit && |s| <= limit
    ensures name in s ==> Touch(s, name, limit) == [name] + Without(s, name)
    ensures name !in s && |s| < limit ==> Touch(s, name, limit) == [name] + s
    ensures name !in s && |s| == limit ==> Touch(s, name, limit) == [name] + s[..|s| - 1]
  {
  }

  lemma TouchNew(maxServices: int, u: Usage, s: seq<string>, name: string, now: int, u': Usage)
    requires Mirrors(u, s) && |s| <= Limit(maxServices) && name !in u && forall n | n in u :: u[n] < now
    requires Request(maxServices, u, name, now, u')
    ensures Mirrors(u', Touch(s, name, Limit(maxServices)))
  {
    MirrorSize(u, s);
    TouchForms(s, name, Limit(maxServices));
    if |u| < maxServices || u == map[] {
      AddNew(u, s, name, now);
    } else {
      var e :| IsOldest(u, e) && u' == (u - {e})[name := now];
      EvictOldest(u, s, e, name, now);
    }
  }

  /** A request on the map is a touch of the bounded recency list. */
  lemma RequestTouches(maxServices: int, u: Usage, s: seq<string>, name: string, now: int, u': Usage)
    requires Mirrors(u, s) && |s| <= Limit(maxServices) && (forall n | n in u :: u[n] < now)
    requires Request(maxServices, u, name, now, u')
    ensures Mirrors(u', Touch(s, name, Limit(maxServices)))
  {
    if name in u {
      TouchForms(s, name, Limit(maxServices));
      TouchExisting(u, s, name, now);
    } else {
      TouchNew(maxServices, u, s, name, now, u');
    }
  }

  lemma {:induction false} TimesPast(maxServices: int, calls: seq<Call>, maps: seq<Usage>, i: nat)
    requires Run(maxServices, calls, maps) && i < |calls|
    ensures forall n | n in maps[i] :: maps[i][n] < calls[i].at
  {
    if i == 0 {
    } else {
      TimesPast(maxServices, calls, maps, i - 1);
      assert Request(maxServices, maps[i - 1], calls[i - 1].name, calls[i - 1].at, maps[i]);
      assert calls[i - 1].at < calls[i].at;
    }
  }

  lemma RecentExtends(calls: seq<Call>, c: Call)
    ensures Recent(calls + [c]) == [c.name] + Without(Recent(calls), c.name)
  {
    assert (calls + [c])[..|calls|] == calls;
  }

  lemma RequestAddsOnly(maxServices: int, u: Usage, name: string, t: int, u': Usage)
    requires Request(maxServices, u, name, t, u')
    ensures forall n | n in u' :: n in u || n == name
  {
  }

  /** The map holds exactly the most recently requested distinct names of `calls`, as many as
      fit in max(1, maxServices). */
  ghost predicate HoldsRecent(maxServices: int, u: Usage, calls: seq<Call>) {
    Mirrors(u, Take(Recent(calls), Limit(maxServices)))
  }

  /** One more request, later than every use so far, keeps it so. */
  lemma RecencyStep(maxServices: int, u: Usage, calls: seq<Call>, c: Call, u': Usage)
    requires HoldsRecent(maxServices, u, calls)
    requires (forall n | n in u :: u[n] < c.at) && Request(maxServices, u, c.name, c.at, u')
    ensures HoldsRecent(maxServices, u', calls + [c])
    ensures |u'| <= Limit(maxServices) && forall n | n in u' :: n in u || n == c.name
  {
    var limit, now := Limit(maxServices), Take(Recent(calls + [c]), Limit(maxServices));
    assert Mirrors(u', now) by {
      RecentDistinct(calls);
      RequestTouches(maxServices, u, Take(Recent(calls), limit), c.name, c.at, u');
      TouchIsTake(Recent(calls), c.name, limit);
      RecentExtends(calls, c);
    }
    RequestAddsOnly(maxServices, u, c.name, c.at, u');
    MirrorSize(u', now);
  }

  lemma HoldsAsMany(maxServices: int, u: Usage, calls: seq<Call>)
    requires HoldsRecent(maxServices, u, calls)
    ensures |u| == Min(|Recent(calls)|, Max(1, maxServices))
  {
    MirrorSize(u, Take(Recent(calls), Limit(maxServices)));
  }

  lemma NextIsRecent(maxServices: int, calls: seq<Call>, maps: seq<Usage>, i: nat)
    requires Run(maxServices, calls, maps) && i < |calls| && HoldsRecent(maxServices, maps[i], calls[..i])
    ensures HoldsRecent(maxServices, maps[i + 1], calls[..i + 1])
  {
    TimesPast(maxServices, calls, maps, i);
    assert calls[..i + 1] == calls[..i] + [calls[i]];
    RecencyStep(maxServices, maps[i], calls[..i], calls[i], maps[i + 1]);
  }

  lemma {:induction false} AlwaysRecent(maxServices: int, calls: seq<Call>, maps: seq<Usage>, i: nat)
    requires Run(maxServices, calls, maps) && i < |maps|
    ensures HoldsRecent(maxServices, maps[i], calls[..i])
  {
    if i == 0 {
    } else {
      AlwaysRecent(maxServices, calls, maps, i - 1);
      NextIsRecent(maxServices, calls, maps, i - 1);
    }
  }

  /** After any sequence of requests the map holds exactly the most recently requested
      distinct names, all of them or as many as max(1, maxServices). */
  lemma MapIsRecent(maxServices: int, calls: seq<Call>, maps: seq<Usage>, i: nat)
    requires Run(maxServices, calls, maps) && i < |maps|
    ensures HoldsRecent(maxServices, maps[i], calls[..i])
    ensures |maps[i]| == Min(|Recent(calls[..i])|, Max(1, maxServices))
  {
    AlwaysRecent(maxServices, calls, maps, i);
    HoldsAsMany(maxServices, maps[i], calls[..i]);
  }
}
