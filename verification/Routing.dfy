/** What a node does to its routing table and its list of sources: routes learned from requests and replies, the
    two-phase expiry, and the sweep after a broken link (aodv_route.c, rerr.c). */
module Routing {
  import opened Types
  import opened Clock
  import opened RouteTables
  import S = SourceLists

  datatype Tables = Tables(routes: seq<Route>, sources: seq<S.Source>)

  // ---- Routes learned ----

  /** `create_aodv_route`; its lifetime is whatever the memory held. */
  function Created(key: Key, id: nat, junk: nat): Route {
    Route(key, id, 0, 0, 0, key.src, false, false, Invalid, junk)
  }

  /** The route to a neighbour that `route_aodv_neigh` inserts without looking for its key. Its id is the node's own
      number. */
  function NeighbourRoute(me: Ip, ip: Ip, id: nat, junk: nat): Route {
    Route(Key(me, ip, 0), id, 1, 1, 0, me, true, true, Active, junk)
  }

  /** What a message says about a route. */
  datatype News = News(key: Key, nextHop: Ip, hops: nat, id: nat, metric: nat)

  function Learned(r: Route, news: News, now: nat): Route {
    r.(metric := news.metric, id := news.id, hops := news.hops, nextHop := news.nextHop,
       lifetime := now + DELETE_PERIOD, state := Active)
  }

  /** One more route of a source, which is listed if it is not yet. */
  function Acquire(ss: seq<S.Source>, ip: Ip, me: Ip): Option<seq<S.Source>> {
    if S.Find(ss, ip) < |ss| then Some(AddRoutes(ss, S.Find(ss, ip), 1))
    else
      match S.Insert(ss, ip, me)
      case None => None
      case Some(ss') => Some(AddRoutes(ss', 0, 1))
  }

  function AddRoutes(ss: seq<S.Source>, k: nat, n: int): seq<S.Source> {
    if k < |ss| then ss[k := ss[k].(routes := ss[k].routes + n)] else ss
  }

  predicate Rejects(r: Route, news: News) {
    r.id > news.id || (news.id == r.id && news.metric >= r.metric)
  }

  /** `rreq_aodv_route`. A new route is in the table before its source gets a kernel table, and stays there, not
      filled in, when there is none left. */
  function Learn(t: Tables, me: Ip, news: News, now: nat, junk: nat): (Tables, bool) {
    var k := Find(t.routes, news.key);
    if k < |t.routes| then
      if Rejects(t.routes[k], news) then (t, false)
      else (t.(routes := t.routes[k := Learned(t.routes[k], news, now)]), true)
    else
      var created := Created(news.key, news.id, junk);
      match Acquire(t.sources, news.key.src, me)
      case None => (t.(routes := Insert(t.routes, created)), false)
      case Some(ss) => (Tables(Insert(t.routes, Learned(created, news, now)), ss), true)
  }

  /** Where the route at position `j` is once a route with the key has been learned: a new one may take its place. */
  function Moved(rs: seq<Route>, key: Key, j: nat): nat {
    if Find(rs, key) < |rs| || j < PlaceFor(rs, key.dst) then j else j + 1
  }

  lemma LearnMoves(t: Tables, me: Ip, news: News, now: nat, junk: nat, j: nat)
    requires j < |t.routes|
    ensures var rs' := Learn(t, me, news, now, junk).0.routes;
      var j' := Moved(t.routes, news.key, j);
      && j' < |rs'| && rs'[j'].key == t.routes[j].key && rs'[j'].self == t.routes[j].self
      && (j != Find(t.routes, news.key) ==> rs'[j'] == t.routes[j])
  {
    hide Find, PlaceFor, S.Find, S.Insert;
  }

  /** The source of a new route cannot be listed. */
  predicate Strands(t: Tables, news: News) {
    && Find(t.routes, news.key) == |t.routes| && S.Find(t.sources, news.key.src) == |t.sources|
    && news.key.src != S.NULL_IP && S.Exhausted(t.sources)
  }

  /** `rrep_aodv_route` on the route at position `k`. */
  function Confirm(t: Tables, k: nat, now: nat): (Tables, bool) {
    if k < |t.routes| && S.Find(t.sources, t.routes[k].key.src) < |t.sources| then
      (t.(routes := t.routes[k := t.routes[k].(state := Replied, lifetime := now + DELETE_PERIOD)]), true)
    else (t, false)
  }

  /** A packet leaves by the route at position `k`. */
  function Used(t: Tables, k: nat, now: nat): Tables {
    if k < |t.routes| && t.routes[k].state != Invalid then
      t.(routes := t.routes[k := t.routes[k].(state := Active, lifetime := now + ACTIVE_ROUTE_TIMEOUT)])
    else t
  }

  lemma InsertUpdated(rs: seq<Route>, r: Route, r': Route)
    requires r'.key == r.key
    ensures Insert(rs, r)[PlaceFor(rs, r.key.dst) := r'] == Insert(rs, r')
  {
    hide PlaceFor;
  }

  // ---- Expiry ----

  function Expired(r: Route, now: nat): Route {
    r.(lifetime := now + DELETE_PERIOD, state := Invalid)
  }

  predicate Stale(r: Route, now: nat) {
    TimeBefore(r.lifetime, now) && !r.self
  }

  predicate Dead(r: Route, now: nat) {
    Stale(r, now) && r.state == Invalid
  }

  /** What becomes of a route that a sweep does not remove. */
  function Fate(r: Route, now: nat): Route {
    if Stale(r, now) then Expired(r, now) else r
  }

  /** The routes a sweep leaves: stale ones are invalidated first and removed by a later sweep. */
  function Kept(rs: seq<Route>, now: nat): seq<Route> {
    if rs == [] then []
    else
      var r := rs[|rs| - 1];
      Kept(rs[..|rs| - 1], now) + (if Dead(r, now) then [] else [Fate(r, now)])
  }

  /** One route less of a source; the last one takes the source with it, unless that is the node itself. */
  function Release(ss: seq<S.Source>, ip: Ip, me: Ip): seq<S.Source> {
    var k := S.Find(ss, ip);
    if k == |ss| then ss
    else
      var left := ss[k].routes - 1;
      if left <= 0 && ip != me then S.Delete(AddRoutes(ss, k, -1), ip)
      else if left <= 0 then ss[k := ss[k].(routes := 1)]
      else AddRoutes(ss, k, -1)
  }

  function Freed(rs: seq<Route>, ss: seq<S.Source>, me: Ip, now: nat): seq<S.Source> {
    if rs == [] then ss
    else
      var r := rs[|rs| - 1];
      var freed := Freed(rs[..|rs| - 1], ss, me, now);
      if Dead(r, now) then Release(freed, r.key.src, me) else freed
  }

  /** `flush_aodv_route_table`. */
  function Sweep(t: Tables, me: Ip, now: nat): Tables {
    Tables(Kept(t.routes, now), Freed(t.routes, t.sources, me, now))
  }

  // ---- Broken links ----

  /** A route error, sent to the previous hop of a route. */
  datatype Rerr = Rerr(to: Ip, dst: Ip, id: nat)

  /** `reply_to_rrer`: the node is itself the source of the traffic. */
  predicate IsSource(src: Ip, me: Ip, gateway: bool) {
    src == me || (src == S.NULL_IP && gateway)
  }

  predicate Through(r: Route, ip: Ip) {
    r.nextHop == ip && !r.self && !r.neigh
  }

  /** What a broken link to `ip` does to a route. */
  function Broken(r: Route, ip: Ip, now: nat): Route {
    if Through(r, ip) && r.state != Invalid then Expired(r, now) else r
  }

  predicate Reported(r: Route, ip: Ip, me: Ip, gateway: bool) {
    Through(r, ip) && r.state != Invalid && !IsSource(r.key.src, me, gateway)
  }

  function AllBroken(rs: seq<Route>, ip: Ip, now: nat): (r: seq<Route>)
    ensures |r| == |rs| && forall i :: 0 <= i < |rs| ==> r[i] == Broken(rs[i], ip, now)
  {
    seq(|rs|, i requires 0 <= i < |rs| => Broken(rs[i], ip, now))
  }

  function Reports(rs: seq<Route>, ip: Ip, me: Ip, gateway: bool): seq<Rerr> {
    if rs == [] then []
    else
      var r := rs[|rs| - 1];
      Reports(rs[..|rs| - 1], ip, me, gateway)
        + (if Reported(r, ip, me, gateway) then [Rerr(r.lastHop, r.key.dst, r.id)] else [])
  }

  /** `recv_rerr` from neighbour `from`, for the route with that id. */
  function Reacted(rs: seq<Route>, dst: Ip, id: nat, from: Ip, now: nat): seq<Route> {
    var k := FindById(rs, dst, id);
    if k < |rs| && rs[k].nextHop == from && rs[k].state != Invalid then rs[k := Expired(rs[k], now)] else rs
  }

  function Forwarded(rs: seq<Route>, dst: Ip, id: nat, from: Ip, me: Ip, gateway: bool): Option<Rerr> {
    var k := FindById(rs, dst, id);
    if k < |rs| && rs[k].nextHop == from && rs[k].state != Invalid && !IsSource(rs[k].key.src, me, gateway)
    then Some(Rerr(rs[k].lastHop, rs[k].key.dst, rs[k].id)) else None
  }

  // ---- Everything that can happen to the tables ----

  datatype Event =
    | EventLearn(news: News, junk: nat)
    | EventConfirm(k: nat)
    | EventLastHop(k: nat, hop: Ip)
    | EventUse(k: nat)
    | EventSweep
    | EventBreak(ip: Ip)
    | EventReport(dst: Ip, id: nat, from: Ip)
    | EventNeighbour(ip: Ip, id: nat, junk: nat)

  function After(t: Tables, me: Ip, e: Event, now: nat): Tables {
    match e
    case EventLearn(news, junk) => Learn(t, me, news, now, junk).0
    case EventConfirm(k) => Confirm(t, k, now).0
    case EventLastHop(k, hop) => if k < |t.routes| then t.(routes := t.routes[k := t.routes[k].(lastHop := hop)]) else t
    case EventUse(k) => Used(t, k, now)
    case EventSweep => Sweep(t, me, now)
    case EventBreak(ip) => t.(routes := AllBroken(t.routes, ip, now))
    case EventReport(dst, id, from) => t.(routes := Reacted(t.routes, dst, id, from, now))
    case EventNeighbour(ip, id, junk) => t.(routes := Insert(t.routes, NeighbourRoute(me, ip, id, junk)))
  }

  // ---- Keys and order ----

  /** Events other than learning and sweeping leave the keys and the self flags where they are. */
  ghost predicate SameKeys(rs: seq<Route>, rs': seq<Route>) {
    |rs'| == |rs| && forall i :: 0 <= i < |rs| ==> rs'[i].key == rs[i].key && rs'[i].self == rs[i].self
  }

  /** Every route a sweep leaves comes from a route that is not dead. */
  lemma {:induction false} KeptFrom(rs: seq<Route>, now: nat, r': Route) returns (r: Route)
    requires r' in Kept(rs, now)
    ensures r in rs && !Dead(r, now) && r' == Fate(r, now)
  {
    hide Dead, Fate;
    var n := |rs| - 1;
    if r' in Kept(rs[..n], now) {
      r := KeptFrom(rs[..n], now, r');
    } else {
      r := rs[n];
    }
  }

  /** Every route that is not dead is left, stale ones invalidated. */
  lemma {:induction false} KeptHas(rs: seq<Route>, now: nat, r: Route)
    requires r in rs && !Dead(r, now)
    ensures Fate(r, now) in Kept(rs, now)
  {
    hide Dead, Fate;
    var n := |rs| - 1;
    if r in rs[..n] {
      KeptHas(rs[..n], now, r);
    } else {
      assert r == rs[n];
    }
  }

  lemma {:induction false} SweepKeepsKeys(rs: seq<Route>, now: nat)
    ensures SortedByDst(rs) ==> SortedByDst(Kept(rs, now))
    ensures UniqueKeys(rs) ==> UniqueKeys(Kept(rs, now))
  {
    hide Dead, Stale;
    if rs != [] {
      var init, last := rs[..|rs| - 1], rs[|rs| - 1];
      SweepKeepsKeys(init, now);
      forall i | 0 <= i < |Kept(init, now)|
        ensures SortedByDst(rs) ==> Kept(init, now)[i].key.dst <= last.key.dst
        ensures UniqueKeys(rs) ==> Kept(init, now)[i].key != last.key
      {
        var r := KeptFrom(init, now, Kept(init, now)[i]);
      }
    }
  }

  lemma LearnKeepsKeys(t: Tables, me: Ip, news: News, now: nat, junk: nat)
    ensures SortedByDst(t.routes) ==> SortedByDst(Learn(t, me, news, now, junk).0.routes)
    ensures UniqueKeys(t.routes) ==> UniqueKeys(Learn(t, me, news, now, junk).0.routes)
  {
    hide Find, PlaceFor, Insert, Acquire, SortedByDst, UniqueKeys;
    var k := Find(t.routes, news.key);
    if k < |t.routes| {
      SameKeysKept(t.routes, t.routes[k := Learned(t.routes[k], news, now)]);
    } else {
      var created := Created(news.key, news.id, junk);
      InsertKeepsKeys(t.routes, created);
      InsertKeepsKeys(t.routes, Learned(created, news, now));
    }
  }

  lemma InsertKeepsKeys(rs: seq<Route>, r: Route)
    ensures SortedByDst(rs) ==> SortedByDst(Insert(rs, r))
    ensures UniqueKeys(rs) ==> (UniqueKeys(Insert(rs, r)) <==> Find(rs, r.key) == |rs|)
  {
    if SortedByDst(rs) {
      InsertKeepsOrder(rs, r);
    }
    if UniqueKeys(rs) {
      InsertKeepsUnique(rs, r);
    }
  }

  lemma SameKeysKept(rs: seq<Route>, rs': seq<Route>)
    requires SameKeys(rs, rs')
    ensures SortedByDst(rs) ==> SortedByDst(rs')
    ensures UniqueKeys(rs) ==> UniqueKeys(rs')
  {
  }

  /** Every event that does not change which routes there are. */
  lemma EventSameKeys(t: Tables, me: Ip, e: Event, now: nat)
    requires !e.EventLearn? && !e.EventSweep? && !e.EventNeighbour?
    ensures SameKeys(t.routes, After(t, me, e, now).routes) && After(t, me, e, now).sources == t.sources
  {
    hide FindById, S.Find;
  }

  /** Every event keeps the table sorted. Keys stay unique exactly as long as no route to a neighbour is inserted for a
      key that is there already. */
  lemma {:induction false} EventKeepsKeys(t: Tables, me: Ip, e: Event, now: nat)
    ensures SortedByDst(t.routes) ==> SortedByDst(After(t, me, e, now).routes)
    ensures UniqueKeys(t.routes) ==>
      (UniqueKeys(After(t, me, e, now).routes) <==> !Doubles(t, me, e))
  {
    hide Learn, Kept, TimeBefore, Find, Insert;
    if e.EventLearn? {
      LearnKeepsKeys(t, me, e.news, now, e.junk);
    } else if e.EventSweep? {
      SweepKeepsKeys(t.routes, now);
    } else if e.EventNeighbour? {
      InsertKeepsKeys(t.routes, NeighbourRoute(me, e.ip, e.id, e.junk));
    } else {
      EventSameKeys(t, me, e, now);
      hide After;
      SameKeysKept(t.routes, After(t, me, e, now).routes);
    }
  }

  /** A route to a neighbour is inserted for a key that is there already. */
  predicate Doubles(t: Tables, me: Ip, e: Event) {
    e.EventNeighbour? && Find(t.routes, Key(me, e.ip, 0)) < |t.routes|
  }

  // ---- Reference counts ----

  /** How many routes of the source the node has learned. */
  function Count(rs: seq<Route>, ip: Ip): nat {
    if rs == [] then 0
    else Count(rs[..|rs| - 1], ip) + (if rs[|rs| - 1].key.src == ip && !rs[|rs| - 1].self then 1 else 0)
  }

  /** The count that the list keeps for a source, if it is listed. */
  function Refs(ss: seq<S.Source>, ip: Ip): Option<int> {
    if S.Find(ss, ip) < |ss| then Some(ss[S.Find(ss, ip)].routes) else None
  }

  /** The count that it should keep: one for each route, one more for the node itself, and no entry for nothing. */
  function RefsDue(rs: seq<Route>, ip: Ip, me: Ip): Option<int> {
    if ip == me then Some(1 + Count(rs, ip))
    else if Count(rs, ip) == 0 then None
    else Some(Count(rs, ip))
  }

  ghost predicate OncePerSource(ss: seq<S.Source>) {
    forall i, j :: 0 <= i < j < |ss| ==> ss[i].ip != ss[j].ip
  }

  ghost predicate Conserved(t: Tables, me: Ip) {
    OncePerSource(t.sources) && forall ip :: Refs(t.sources, ip) == RefsDue(t.routes, ip, me)
  }

  lemma {:induction false} CountSame(rs: seq<Route>, rs': seq<Route>, ip: Ip)
    requires SameKeys(rs, rs')
    ensures Count(rs', ip) == Count(rs, ip)
  {
    if rs != [] {
      CountSame(rs[..|rs| - 1], rs'[..|rs| - 1], ip);
    }
  }

  lemma {:induction false} CountSum(a: seq<Route>, b: seq<Route>, ip: Ip)
    ensures Count(a + b, ip) == Count(a, ip) + Count(b, ip)
  {
    if b == [] {
      assert a + b == a;
    } else {
      assert (a + b)[..|a + b| - 1] == a + b[..|b| - 1];
      CountSum(a, b[..|b| - 1], ip);
    }
  }

  lemma CountInsert(rs: seq<Route>, r: Route, ip: Ip)
    ensures Count(Insert(rs, r), ip) == Count(rs, ip) + (if r.key.src == ip && !r.self then 1 else 0)
  {
    hide PlaceFor;
    var k := PlaceFor(rs, r.key.dst);
    CountSum(rs[..k], [r] + rs[k..], ip);
    CountSum([r], rs[k..], ip);
    CountSum(rs[..k], rs[k..], ip);
    assert Insert(rs, r) == rs[..k] + ([r] + rs[k..]) && rs == rs[..k] + rs[k..];
    assert [r][..0] == [];
    assert Count([r], ip) == if r.key.src == ip && !r.self then 1 else 0;
  }

  /** A source is listed once, so any entry of it is the one that is found. */
  lemma RefsAt(ss: seq<S.Source>, k: nat)
    requires OncePerSource(ss) && k < |ss|
    ensures S.Find(ss, ss[k].ip) == k && Refs(ss, ss[k].ip) == Some(ss[k].routes)
  {
    hide S.Find;
    assert S.Find(ss, ss[k].ip) <= k;
  }

  lemma RefsNone(ss: seq<S.Source>, ip: Ip)
    ensures Refs(ss, ip) == None <==> forall i :: 0 <= i < |ss| ==> ss[i].ip != ip
  {
    hide S.Find;
  }

  lemma RefsListed(ss: seq<S.Source>, ip: Ip)
    ensures S.Find(ss, ip) < |ss| <==> Refs(ss, ip).Some?
  {
  }

  /** Lists that agree on the addresses other than one agree on their counts. */
  lemma RefsElsewhere(ss: seq<S.Source>, ss': seq<S.Source>, ip: Ip, x: Ip)
    requires OncePerSource(ss) && OncePerSource(ss') && x != ip
    requires forall s: S.Source :: s.ip != ip ==> (s in ss <==> s in ss')
    ensures Refs(ss', x) == Refs(ss, x)
  {
    hide S.Find;
    var k, k' := S.Find(ss, x), S.Find(ss', x);
    if k < |ss| {
      assert ss[k] in ss';
      var i :| 0 <= i < |ss'| && ss'[i] == ss[k];
      RefsAt(ss', i);
    } else {
      forall i | 0 <= i < |ss'|
        ensures ss'[i].ip != x
      {
        assert ss'[i] in ss';
      }
    }
  }

  lemma AddRoutesRefs(ss: seq<S.Source>, k: nat, n: int, x: Ip)
    requires OncePerSource(ss) && k < |ss|
    ensures OncePerSource(AddRoutes(ss, k, n))
    ensures Refs(AddRoutes(ss, k, n), x) == if x == ss[k].ip then Some(ss[k].routes + n) else Refs(ss, x)
  {
    hide S.Find;
    var ss' := AddRoutes(ss, k, n);
    RefsAt(ss', k);
    if x != ss[k].ip {
      forall s: S.Source | s.ip != ss[k].ip
        ensures s in ss <==> s in ss'
      {
        if s in ss {
          var i :| 0 <= i < |ss| && ss[i] == s;
          assert ss'[i] == s;
        }
      }
      RefsElsewhere(ss, ss', ss[k].ip, x);
    }
  }

  lemma AcquireRefs(ss: seq<S.Source>, ip: Ip, me: Ip, x: Ip)
    requires OncePerSource(ss) && Acquire(ss, ip, me).Some?
    ensures var ss' := Acquire(ss, ip, me).value;
      && OncePerSource(ss')
      && var before := if Refs(ss, ip) == None then (if ip == me then 1 else 0) else Refs(ss, ip).value;
      Refs(ss', x) == if x == ip then Some(before + 1) else Refs(ss, x)
  {
    hide S.Exhausted, S.FreeFrom;
    if S.Find(ss, ip) < |ss| {
      AddRoutesRefs(ss, S.Find(ss, ip), 1, x);
    } else {
      var inserted := S.Insert(ss, ip, me).value;
      assert OncePerSource(inserted);
      if x != ip {
        RefsElsewhere(ss, inserted, ip, x);
      }
      AddRoutesRefs(inserted, 0, 1, x);
    }
  }

  lemma DeleteRefs(ss: seq<S.Source>, ip: Ip, x: Ip)
    requires OncePerSource(ss)
    ensures OncePerSource(S.Delete(ss, ip))
    ensures Refs(S.Delete(ss, ip), x) == if x == ip then None else Refs(ss, x)
  {
    hide S.Find;
    var k := S.Find(ss, ip);
    var ss' := S.Delete(ss, ip);
    if k < |ss| {
      if x == ip {
        RefsNone(ss', ip);
      } else {
        forall s: S.Source | s.ip != ip
          ensures s in ss <==> s in ss'
        {
          if s in ss {
            var i :| 0 <= i < |ss| && ss[i] == s;
            assert ss'[if i < k then i else i - 1] == s;
          }
        }
        RefsElsewhere(ss, ss', ip, x);
      }
    }
  }

  lemma ReleaseRefs(ss: seq<S.Source>, ip: Ip, me: Ip, x: Ip)
    requires OncePerSource(ss)
    ensures OncePerSource(Release(ss, ip, me))
    ensures x != ip ==> Refs(Release(ss, ip, me), x) == Refs(ss, x)
    ensures Refs(ss, ip) == None ==> Refs(Release(ss, ip, me), ip) == None
    ensures Refs(ss, ip).Some? ==>
      var left := Refs(ss, ip).value - 1;
      Refs(Release(ss, ip, me), ip) == if left > 0 then Some(left) else if ip == me then Some(1) else None
  {
    hide S.Find;
    var k := S.Find(ss, ip);
    if k < |ss| {
      AddRoutesRefs(ss, k, -1, x);
      AddRoutesRefs(ss, k, -1, ip);
      AddRoutesRefs(ss, k, 1 - ss[k].routes, x);
      AddRoutesRefs(ss, k, 1 - ss[k].routes, ip);
      DeleteRefs(AddRoutes(ss, k, -1), ip, x);
      DeleteRefs(AddRoutes(ss, k, -1), ip, ip);
    }
  }

  lemma SameCounts(t: Tables, t': Tables, me: Ip)
    requires Conserved(t, me) && t'.sources == t.sources && SameKeys(t.routes, t'.routes)
    ensures Conserved(t', me)
  {
    hide Refs, Count;
    forall ip
      ensures Count(t'.routes, ip) == Count(t.routes, ip)
    {
      CountSame(t.routes, t'.routes, ip);
    }
  }

  /** Learning a route keeps the counts exactly when its source can be listed. */
  lemma LearnConservesExactly(t: Tables, me: Ip, news: News, now: nat, junk: nat)
    requires Conserved(t, me)
    ensures Conserved(Learn(t, me, news, now, junk).0, me) <==> !Strands(t, news)
  {
    hide Find, S.Find, Insert, Count, S.Exhausted, Refs;
    var k := Find(t.routes, news.key);
    var t' := Learn(t, me, news, now, junk).0;
    if k < |t.routes| {
      SameCounts(t, t', me);
    } else {
      var created := Created(news.key, news.id, junk);
      var src := news.key.src;
      CountInsert(t.routes, created, src);
      RefsListed(t.sources, src);
      if Strands(t, news) {
        assert Refs(t'.sources, src) != RefsDue(t'.routes, src, me);
      } else {
        var r := Learned(created, news, now);
        forall ip
          ensures OncePerSource(t'.sources) && Refs(t'.sources, ip) == RefsDue(t'.routes, ip, me)
        {
          AcquireRefs(t.sources, src, me, ip);
          CountInsert(t.routes, r, ip);
        }
      }
    }
  }

  lemma {:induction false} FreedRefs(rs: seq<Route>, rest: seq<Route>, ss: seq<S.Source>, me: Ip, now: nat)
    requires OncePerSource(ss) && forall ip :: Refs(ss, ip) == RefsDue(rs + rest, ip, me)
    ensures OncePerSource(Freed(rs, ss, me, now))
    ensures forall ip :: Refs(Freed(rs, ss, me, now), ip) == RefsDue(Kept(rs, now) + rest, ip, me)
  {
    hide Refs, Count, TimeBefore, Release;
    if rs == [] {
      assert rs + rest == rest && Kept(rs, now) + rest == rest;
    } else {
      var init, r := rs[..|rs| - 1], rs[|rs| - 1];
      var freed := Freed(init, ss, me, now);
      assert rs + rest == init + ([r] + rest);
      FreedRefs(init, [r] + rest, ss, me, now);
      ReleaseRefs(freed, r.key.src, me, me);
      forall ip
        ensures Refs(Freed(rs, ss, me, now), ip) == RefsDue(Kept(rs, now) + rest, ip, me)
      {
        FreedOne(Kept(init, now), r, rest, ip);
        FreedOne(Kept(init, now), Expired(r, now), rest, ip);
        FreedOne(Kept(init, now), r, rest, r.key.src);
        ReleaseRefs(freed, r.key.src, me, ip);
        assert Dead(r, now) ==> Kept(rs, now) + rest == Kept(init, now) + rest;
        assert Kept(init, now) + [r] + rest == Kept(init, now) + ([r] + rest);
      }
    }
  }

  lemma FreedOne(a: seq<Route>, r: Route, b: seq<Route>, ip: Ip)
    ensures Count(a + ([r] + b), ip) == Count(a + b, ip) + (if r.key.src == ip && !r.self then 1 else 0)
    ensures Count(a + [r] + b, ip) == Count(a + b, ip) + (if r.key.src == ip && !r.self then 1 else 0)
  {
    CountSum(a, [r] + b, ip);
    CountSum([r], b, ip);
    CountSum(a, b, ip);
    assert a + [r] + b == a + ([r] + b);
    assert [r][..0] == [];
    assert Count([r], ip) == if r.key.src == ip && !r.self then 1 else 0;
  }

  lemma SweepConserves(t: Tables, me: Ip, now: nat)
    requires Conserved(t, me)
    ensures Conserved(Sweep(t, me, now), me)
  {
    hide Refs, RefsDue, Kept, Freed;
    assert t.routes + [] == t.routes && Kept(t.routes, now) + [] == Kept(t.routes, now);
    FreedRefs(t.routes, [], t.sources, me, now);
  }

  lemma NeighbourConserves(t: Tables, me: Ip, e: Event, now: nat)
    requires Conserved(t, me) && e.EventNeighbour?
    ensures Conserved(After(t, me, e, now), me)
  {
    hide Refs, Count, Insert;
    forall ip
      ensures Count(After(t, me, e, now).routes, ip) == Count(t.routes, ip)
    {
      CountInsert(t.routes, NeighbourRoute(me, e.ip, e.id, e.junk), ip);
    }
  }

  /** Whatever happens, the counts are kept, unless a route is learned whose source cannot be listed. */
  lemma EventConservesExactly(t: Tables, me: Ip, e: Event, now: nat)
    requires Conserved(t, me)
    ensures Conserved(After(t, me, e, now), me) <==> !(e.EventLearn? && Strands(t, e.news))
  {
    hide Conserved, Learn, Sweep;
    if e.EventLearn? {
      LearnConservesExactly(t, me, e.news, now, e.junk);
    } else if e.EventSweep? {
      SweepConserves(t, me, now);
    } else if e.EventNeighbour? {
      NeighbourConserves(t, me, e, now);
    } else {
      EventSameKeys(t, me, e, now);
      SameCounts(t, After(t, me, e, now), me);
    }
  }

  /** The tables when the protocol starts: the node's route to itself, and the node as a source. */
  function Boot(me: Ip): Tables {
    Tables([Route(Key(me, me, 0), 1, 0, 0, me, me, true, false, Active, 0xFFFF_FFFF_FFFF_FFFF)], [S.Source(me, 1, 1)])
  }

  lemma BootConserved(me: Ip)
    ensures Conserved(Boot(me), me)
  {
    var t := Boot(me);
    assert t.routes[..0] == [] && t.sources[1..] == [];
    forall ip
      ensures Count(t.routes, ip) == 0
      ensures Refs(t.sources, ip) == if ip == me then Some(1) else None
    {
      assert Count(t.routes[..0], ip) == 0;
      assert S.Find(t.sources, ip) == if ip == me then 0 else 1 + S.Find(t.sources[1..], ip);
    }
  }

  /** From the start on, the counts and the kernel tables are as they should be, until a route is learned whose
      source cannot be listed. */
  lemma {:induction false} RunConserves(ts: seq<Tables>, es: seq<Event>, clock: seq<nat>, me: Ip, j: nat)
    requires Run(ts, es, clock, me) && ts[0] == Boot(me) && me != S.NULL_IP && j < |ts|
    requires forall i :: 0 <= i < j && es[i].EventLearn? ==> !Strands(ts[i], es[i].news)
    ensures Conserved(ts[j], me) && S.TablesOk(ts[j].sources)
  {
    if j == 0 {
      BootConserved(me);
    } else {
      hide After, Conserved, S.TablesOk, SortedByDst, UniqueKeys, Strands;
      RunConserves(ts, es, clock, me, j - 1);
      EventConservesExactly(ts[j - 1], me, es[j - 1], clock[j - 1]);
      EventKeepsTables(ts[j - 1], me, es[j - 1], clock[j - 1]);
    }
  }

  // ---- A list of sources that is full ----

  /** News of a route from source `k`. */
  function NewsFrom(k: nat): News {
    News(Key(k, 1000, 1), 1000, 1, 1, 1)
  }

  /** The sources listed are 1 to `k`, and all routes are theirs. */
  ghost predicate Busy(t: Tables, k: nat) {
    && S.TablesOk(t.sources) && S.NonNull(t.sources) == S.UpTo(k)
    && forall i :: 0 <= i < |t.routes| ==> t.routes[i].key.src <= k
  }

  lemma BootBusy()
    ensures Busy(Boot(1), 1)
  {
    assert Boot(1).sources[0] in Boot(1).sources;
    assert S.UpTo(1) == {1};
    assert S.NonNull(Boot(1).sources) == {1};
  }

  lemma BusyStrands(t: Tables, k: nat)
    requires Busy(t, k)
    ensures S.Find(t.sources, k + 1) == |t.sources| && Find(t.routes, NewsFrom(k + 1).key) == |t.routes|
    ensures Strands(t, NewsFrom(k + 1)) <==> k == S.MAX_ROUTE_TABLES
  {
    S.ExhaustedExactly(t.sources);
    hide Find, S.Find, S.Exhausted, S.UpTo, S.TablesOk;
    forall i | 0 <= i < |t.sources|
      ensures t.sources[i].ip != k + 1
    {
      assert t.sources[i].ip in S.NonNull(t.sources) || t.sources[i].ip == S.NULL_IP;
    }
  }

  /** One more source at the head of the list. */
  lemma NonNullMore(ss: seq<S.Source>, ss': seq<S.Source>, k: nat)
    requires S.NonNull(ss) == S.UpTo(k) && |ss'| > 0 && ss'[1..] == ss && ss'[0].ip == k + 1
    ensures S.NonNull(ss') == S.UpTo(k + 1)
  {
    hide S.UpTo;
    assert forall s :: s in ss' <==> s == ss'[0] || s in ss;
    assert S.NonNull(ss') == S.NonNull(ss) + {k + 1};
  }

  lemma LearnLists(t: Tables, me: Ip, news: News, now: nat, junk: nat)
    requires Find(t.routes, news.key) == |t.routes| && S.Find(t.sources, news.key.src) == |t.sources|
    requires !Strands(t, news)
    ensures var t' := Learn(t, me, news, now, junk).0;
      && t'.routes == Insert(t.routes, Learned(Created(news.key, news.id, junk), news, now))
      && |t'.sources| > 0 && t'.sources[1..] == t.sources && t'.sources[0].ip == news.key.src
  {
    hide Find, S.Find, S.Exhausted, S.FreeFrom, Insert;
  }

  lemma LearnBusy(t: Tables, k: nat, now: nat)
    requires Busy(t, k) && k < S.MAX_ROUTE_TABLES
    ensures !Strands(t, NewsFrom(k + 1)) && Busy(Learn(t, 1, NewsFrom(k + 1), now, 0).0, k + 1)
  {
    hide Find, S.Find, S.UpTo, S.TablesOk, PlaceFor, S.NonNull, Learn, Strands;
    BusyStrands(t, k);
    EventKeepsTables(t, 1, EventLearn(NewsFrom(k + 1), 0), now);
    LearnLists(t, 1, NewsFrom(k + 1), now, 0);
    NonNullMore(t.sources, Learn(t, 1, NewsFrom(k + 1), now, 0).0.sources, k);
  }

  /** A node that hears of 251 other sources has a full list, without having failed so far. */
  lemma {:induction false} FillsUp(k: nat, now: nat) returns (ts: seq<Tables>, es: seq<Event>, clock: seq<nat>)
    requires 1 <= k <= S.MAX_ROUTE_TABLES
    ensures Run(ts, es, clock, 1) && ts[0] == Boot(1) && Busy(ts[|es|], k)
    ensures forall i :: 0 <= i < |es| ==> es[i].EventLearn? && !Strands(ts[i], es[i].news)
  {
    hide Busy, Learn, Strands;
    if k == 1 {
      ts, es, clock := [Boot(1)], [], [];
      BootBusy();
    } else {
      var e := EventLearn(NewsFrom(k), 0);
      ts, es, clock := FillsUp(k - 1, now);
      LearnBusy(ts[|es|], k - 1, now);
      ts, es, clock := ts + [After(ts[|es|], 1, e, now)], es + [e], clock + [now];
    }
  }

  /** The next source then breaks the counts. */
  lemma FullListStrands(now: nat) returns (ts: seq<Tables>, es: seq<Event>, clock: seq<nat>, news: News)
    ensures Run(ts, es, clock, 1) && ts[0] == Boot(1)
    ensures Strands(ts[|es|], news) && !Conserved(Learn(ts[|es|], 1, news, now, 0).0, 1)
  {
    hide Find, S.Find, S.Exhausted, S.UpTo, Learn, Conserved, After;
    news := NewsFrom(S.MAX_ROUTE_TABLES + 1);
    ts, es, clock := FillsUp(S.MAX_ROUTE_TABLES, now);
    var t := ts[|es|];
    BusyStrands(t, S.MAX_ROUTE_TABLES);
    RunConserves(ts, es, clock, 1, |es|);
    LearnConservesExactly(t, 1, news, now, 0);
  }

  // ---- The node itself ----

  /** The node is listed as a source. */
  predicate Listed(ss: seq<S.Source>, ip: Ip) {
    S.Find(ss, ip) < |ss|
  }

  lemma ReleaseKeepsMe(ss: seq<S.Source>, ip: Ip, me: Ip)
    requires Listed(ss, me)
    ensures Listed(Release(ss, ip, me), me)
  {
    hide S.Find;
    var ss' := Release(ss, ip, me);
    var i, k := S.Find(ss, me), S.Find(ss, ip);
    assert |ss'| == |ss| ==> ss'[i].ip == me;
    assert |ss'| < |ss| ==> ss'[if i < k then i else i - 1].ip == me;
  }

  lemma {:induction false} FreedKeepsMe(rs: seq<Route>, ss: seq<S.Source>, me: Ip, now: nat)
    requires Listed(ss, me)
    ensures Listed(Freed(rs, ss, me, now), me)
  {
    hide Listed, Release, Dead;
    if rs != [] {
      FreedKeepsMe(rs[..|rs| - 1], ss, me, now);
      ReleaseKeepsMe(Freed(rs[..|rs| - 1], ss, me, now), rs[|rs| - 1].key.src, me);
    }
  }

  /** Whatever happens, the node stays listed. */
  lemma EventKeepsMe(t: Tables, me: Ip, e: Event, now: nat)
    requires Listed(t.sources, me)
    ensures Listed(After(t, me, e, now).sources, me)
  {
    if e.EventLearn? {
      LearnKeepsMe(t, me, e.news, now, e.junk);
    } else if e.EventSweep? {
      FreedKeepsMe(t.routes, t.sources, me, now);
    } else if !e.EventNeighbour? {
      EventSameKeys(t, me, e, now);
    }
  }

  lemma LearnKeepsMe(t: Tables, me: Ip, news: News, now: nat, junk: nat)
    requires Listed(t.sources, me)
    ensures Listed(Learn(t, me, news, now, junk).0.sources, me)
  {
    hide Find, S.Find, Insert, S.Exhausted;
    var ss' := Learn(t, me, news, now, junk).0.sources;
    var i := S.Find(t.sources, me);
    assert |ss'| == |t.sources| ==> ss'[i].ip == me;
    assert |ss'| > |t.sources| ==> ss'[i + 1].ip == me;
  }

  // ---- Kernel tables ----

  lemma AddRoutesTables(ss: seq<S.Source>, k: nat, n: int)
    requires S.TablesOk(ss)
    ensures S.TablesOk(AddRoutes(ss, k, n))
  {
  }

  lemma ReleaseTables(ss: seq<S.Source>, ip: Ip, me: Ip)
    requires S.TablesOk(ss)
    ensures S.TablesOk(Release(ss, ip, me))
  {
    hide S.Find, S.Delete;
    var k := S.Find(ss, ip);
    if k < |ss| {
      AddRoutesTables(ss, k, -1);
      S.DeleteKeepsTables(AddRoutes(ss, k, -1), ip);
    }
  }

  lemma {:induction false} FreedTables(rs: seq<Route>, ss: seq<S.Source>, me: Ip, now: nat)
    requires S.TablesOk(ss)
    ensures S.TablesOk(Freed(rs, ss, me, now))
  {
    hide S.TablesOk, Release, Dead;
    if rs != [] {
      FreedTables(rs[..|rs| - 1], ss, me, now);
      ReleaseTables(Freed(rs[..|rs| - 1], ss, me, now), rs[|rs| - 1].key.src, me);
    }
  }

  /** Whatever happens, every listed source keeps a kernel table of its own. */
  lemma EventKeepsTables(t: Tables, me: Ip, e: Event, now: nat)
    requires S.TablesOk(t.sources)
    ensures S.TablesOk(After(t, me, e, now).sources)
  {
    hide S.TablesOk, S.Find, S.Insert, AddRoutes, Find, Insert, Freed, Kept;
    if e.EventLearn? {
      var src := e.news.key.src;
      AddRoutesTables(t.sources, S.Find(t.sources, src), 1);
      if S.Find(t.sources, src) == |t.sources| {
        S.InsertKeepsTables(t.sources, src, me);
        var inserted := S.Insert(t.sources, src, me);
        if inserted.Some? {
          AddRoutesTables(inserted.value, 0, 1);
        }
      }
    } else if e.EventSweep? {
      FreedTables(t.routes, t.sources, me, now);
    } else if !e.EventNeighbour? {
      EventSameKeys(t, me, e, now);
    }
  }

  // ---- Two-phase expiry ----

  /** A route of the node's own is never touched by a sweep. */
  lemma SelfRoutesStay(t: Tables, me: Ip, now: nat, r: Route)
    requires r in t.routes && r.self
    ensures r in Sweep(t, me, now).routes
  {
    KeptHas(t.routes, now, r);
  }

  /** A route that is not dead leaves its key in the table. */
  lemma SweepLeavesKey(t: Tables, me: Ip, now: nat, r: Route)
    requires r in t.routes
    ensures Dead(r, now) || exists r' :: r' in Sweep(t, me, now).routes && r'.key == r.key && r'.self == r.self
  {
    hide Kept, Stale, Dead;
    if !Dead(r, now) {
      KeptHas(t.routes, now, r);
      assert Fate(r, now) in Sweep(t, me, now).routes;
    }
  }

  /** A sweep removes exactly the dead routes. */
  lemma SweepRemoves(t: Tables, me: Ip, now: nat, r: Route)
    requires UniqueKeys(t.routes) && r in t.routes
    ensures Dead(r, now) <==> forall r' :: r' in Sweep(t, me, now).routes ==> r'.key != r.key
  {
    hide Kept, Stale, Dead;
    SweepLeavesKey(t, me, now, r);
    if Dead(r, now) {
      forall r' | r' in Sweep(t, me, now).routes
        ensures r'.key != r.key
      {
        var r0 := KeptFrom(t.routes, now, r');
        assert r0 != r;
      }
    }
  }

  /** A sweep leaves a route alone until its lifetime is over. */
  lemma UntilLifetime(t: Tables, me: Ip, now: nat, r: Route)
    requires r in t.routes && now <= r.lifetime && Close(r.lifetime, now)
    ensures r in Sweep(t, me, now).routes
  {
    TimeBeforeIsOrder(r.lifetime, now);
    KeptHas(t.routes, now, r);
  }

  /** A route that carries a packet survives every sweep of the next 4800 ms, active. */
  lemma UsedRouteStays(t: Tables, me: Ip, k: nat, now: nat, later: nat)
    requires k < |t.routes| && t.routes[k].state != Invalid && now <= later <= now + 4800
    ensures var t' := Used(t, k, now);
      && t'.routes[k] == t.routes[k].(state := Active, lifetime := t'.routes[k].lifetime)
      && t'.routes[k] in Sweep(t', me, later).routes
  {
    var t' := Used(t, k, now);
    UntilLifetime(t', me, later, t'.routes[k]);
  }

  /** A route that has just been accepted or confirmed survives every sweep of the next 3000 ms. A new one has its own
      source as its previous hop. */
  lemma NewRouteStays(t: Tables, me: Ip, news: News, now: nat, junk: nat, later: nat)
    requires Learn(t, me, news, now, junk).1 && now <= later <= now + 3000
    ensures var t' := Learn(t, me, news, now, junk).0;
      exists r :: r in t'.routes && r in Sweep(t', me, later).routes && r.key == news.key && r.state == Active
                  && r.id == news.id && r.metric == news.metric && r.nextHop == news.nextHop && r.hops == news.hops
                  && (Find(t.routes, news.key) == |t.routes| ==> r.lastHop == news.key.src && !r.self && !r.neigh)
  {
    hide Find, S.Find, S.Exhausted;
    var t' := Learn(t, me, news, now, junk).0;
    var found := Find(t.routes, news.key);
    var k := if found < |t.routes| then found else PlaceFor(t.routes, news.key.dst);
    hide PlaceFor;
    UntilLifetime(t', me, later, t'.routes[k]);
  }

  lemma ConfirmedRouteStays(t: Tables, me: Ip, k: nat, now: nat, later: nat)
    requires Confirm(t, k, now).1 && now <= later <= now + 3000
    ensures var t' := Confirm(t, k, now).0;
      && k < |t'.routes| && t'.routes[k].key == t.routes[k].key && t'.routes[k].state == Replied
      && t'.routes[k] in Sweep(t', me, later).routes
  {
    hide S.Find;
    var t' := Confirm(t, k, now).0;
    UntilLifetime(t', me, later, t'.routes[k]);
  }

  /** The table holds an invalid route with that key, id and lifetime, not of the node's own making. */
  ghost predicate Dormant(t: Tables, key: Key, id: nat, lifetime: nat) {
    exists r :: r in t.routes && !r.self && r.key == key && r.id == id && r.state == Invalid && r.lifetime == lifetime
  }

  /** How a route can come to be invalid: a valid one was invalidated just now, or a new one could not be filled
      in. */
  ghost predicate Invalidated(t: Tables, e: Event, now: nat, key: Key, id: nat, lifetime: nat) {
    || (Invalidates(e) && lifetime == now + DELETE_PERIOD && HadValid(t, key, id))
    || Unfilled(t, e, key)
  }

  predicate Invalidates(e: Event) {
    e.EventSweep? || e.EventBreak? || e.EventReport?
  }

  ghost predicate HadValid(t: Tables, key: Key, id: nat) {
    exists r :: r in t.routes && !r.self && r.key == key && r.id == id && r.state != Invalid
  }

  ghost predicate Unfilled(t: Tables, e: Event, key: Key) {
    e.EventLearn? && e.news.key == key && Strands(t, e.news)
  }

  /** An invalid route keeps its id and its lifetime until it is learned again, confirmed or removed. */
  lemma InvalidRoutes(t: Tables, me: Ip, e: Event, now: nat, r: Route)
    requires r in After(t, me, e, now).routes && !r.self && r.state == Invalid
    ensures Dormant(t, r.key, r.id, r.lifetime) || Invalidated(t, e, now, r.key, r.id, r.lifetime)
  {
    hide Find, FindById, S.Find, Kept, TimeBefore, PlaceFor, S.Exhausted;
    var rs' := After(t, me, e, now).routes;
    var i :| 0 <= i < |rs'| && rs'[i] == r;
    match e
    case EventSweep =>
      var r0 := KeptFrom(t.routes, now, r);
    case EventLearn(news, junk) =>
      if Find(t.routes, news.key) == |t.routes| {
        LearnedNew(t, me, news, now, junk, r);
      }
    case EventNeighbour(ip, id, junk) => InsertedMembers(t.routes, NeighbourRoute(me, ip, id, junk), r);
    case _ =>
      EventSameKeys(t, me, e, now);
      assert t.routes[i] in t.routes;
  }

  lemma LearnedNew(t: Tables, me: Ip, news: News, now: nat, junk: nat, r: Route)
    requires Find(t.routes, news.key) == |t.routes|
    requires r in Learn(t, me, news, now, junk).0.routes && r.state == Invalid
    ensures r in t.routes || (Strands(t, news) && r.key == news.key)
  {
    hide Find, S.Find, PlaceFor, S.Exhausted;
    var created := Created(news.key, news.id, junk);
    InsertedMembers(t.routes, created, r);
    InsertedMembers(t.routes, Learned(created, news, now), r);
  }

  lemma InsertedMembers(rs: seq<Route>, x: Route, r: Route)
    ensures r in Insert(rs, x) <==> r == x || r in rs
  {
    hide PlaceFor;
    var k := PlaceFor(rs, x.key.dst);
    assert rs == rs[..k] + rs[k..];
  }

  /** A run of one node, with the time of every event. */
  ghost predicate Run(ts: seq<Tables>, es: seq<Event>, clock: seq<nat>, me: Ip) {
    && |ts| == |es| + 1 && |clock| == |es|
    && (forall r :: r in ts[0].routes ==> r.state != Invalid)
    && forall i :: 0 <= i < |es| ==> ts[i + 1] == After(ts[i], me, es[i], clock[i])
  }

  /** When a route became invalid that is invalid now. */
  lemma {:induction false} InvalidSince(ts: seq<Tables>, es: seq<Event>, clock: seq<nat>, me: Ip, j: nat, key: Key,
                                        id: nat, lifetime: nat)
    returns (i: nat)
    requires Run(ts, es, clock, me) && j < |ts| && Dormant(ts[j], key, id, lifetime)
    ensures i < j && Invalidated(ts[i], es[i], clock[i], key, id, lifetime)
    ensures forall m :: i < m <= j ==> Dormant(ts[m], key, id, lifetime)
  {
    hide After, Invalidated;
    var r :| r in ts[j].routes && !r.self && r.key == key && r.id == id && r.state == Invalid && r.lifetime == lifetime;
    assert j > 0;
    InvalidRoutes(ts[j - 1], me, es[j - 1], clock[j - 1], r);
    if Invalidated(ts[j - 1], es[j - 1], clock[j - 1], key, id, lifetime) {
      i := j - 1;
    } else {
      i := InvalidSince(ts, es, clock, me, j - 1, key, id, lifetime);
    }
  }

  lemma {:induction false} RunKeepsKeys(ts: seq<Tables>, es: seq<Event>, clock: seq<nat>, me: Ip, j: nat)
    requires Run(ts, es, clock, me) && j < |ts|
    ensures SortedByDst(ts[0].routes) ==> SortedByDst(ts[j].routes)
    ensures UniqueKeys(ts[0].routes) && (forall i :: 0 <= i < j ==> !Doubles(ts[i], me, es[i])) ==>
              UniqueKeys(ts[j].routes)
  {
    hide After, SortedByDst, UniqueKeys, Doubles;
    if j > 0 {
      RunKeepsKeys(ts, es, clock, me, j - 1);
      EventKeepsKeys(ts[j - 1], me, es[j - 1], clock[j - 1]);
    }
  }

  /** A route that a sweep removes had been invalid, with the same id, ever since some earlier event, and unless that
      event is the failed creation of the route, more than the delete period has passed since it was valid. */
  lemma RemovedLate(ts: seq<Tables>, es: seq<Event>, clock: seq<nat>, me: Ip, j: nat, r: Route) returns (i: nat)
    requires Run(ts, es, clock, me) && j < |es| && es[j] == EventSweep
    requires r in ts[j].routes && forall r' :: r' in ts[j + 1].routes && r'.key == r.key ==> r'.self != r.self
    ensures !r.self && i < j && Invalidated(ts[i], es[i], clock[i], r.key, r.id, r.lifetime)
    ensures forall m :: i < m <= j ==> Dormant(ts[m], r.key, r.id, r.lifetime)
    ensures !Unfilled(ts[i], es[i], r.key) ==>
      && HadValid(ts[i], r.key, r.id)
      && TimeBefore(clock[i] + DELETE_PERIOD, clock[j])
      && (Close(clock[i] + DELETE_PERIOD, clock[j]) ==> clock[j] > clock[i] + DELETE_PERIOD)
  {
    hide Sweep, TimeBefore, HadValid, Unfilled;
    SweepLeavesKey(ts[j], me, clock[j], r);
    i := InvalidSince(ts, es, clock, me, j, r.key, r.id, r.lifetime);
    if Close(clock[i] + DELETE_PERIOD, clock[j]) {
      TimeBeforeIsOrder(clock[i] + DELETE_PERIOD, clock[j]);
    }
  }

  // ---- Route errors ----

  /** After a broken link no valid route leads through the neighbour, and one report goes to the previous hop of
      every route that was valid and carried the traffic of others. */
  lemma {:induction false} ReportsExactly(rs: seq<Route>, ip: Ip, me: Ip, gateway: bool, e: Rerr)
    ensures e in Reports(rs, ip, me, gateway) <==>
              exists r :: r in rs && Reported(r, ip, me, gateway) && e == Rerr(r.lastHop, r.key.dst, r.id)
  {
    if rs != [] {
      var n := |rs| - 1;
      ReportsExactly(rs[..n], ip, me, gateway, e);
      assert forall r :: r in rs <==> r in rs[..n] || r == rs[n];
    }
  }

  /** An earlier route to the same destination has the same id, so that a search by id does not get to this one. */
  predicate Hidden(rs: seq<Route>, i: nat)
    requires i < |rs|
  {
    exists j :: 0 <= j < i && rs[j].key.dst == rs[i].key.dst && rs[j].id == rs[i].id
  }

  /** How far a broken link reaches upstream. A report goes to the previous hop of every route that is reported, and
      of the valid routes that lead from there through this node it invalidates one exactly if that goes to the same
      destination, has the same id, and is not hidden. */
  lemma ReportInvalidates(rs: seq<Route>, r: Route, ip: Ip, me: Ip, gateway: bool, there: seq<Route>, now: nat)
    requires r in rs && Reported(r, ip, me, gateway)
    ensures Rerr(r.lastHop, r.key.dst, r.id) in Reports(rs, ip, me, gateway)
    ensures var there' := Reacted(there, r.key.dst, r.id, me, now);
      && |there'| == |there|
      && forall i :: 0 <= i < |there| && there[i].nextHop == me && there[i].state != Invalid ==>
           (there'[i].state == Invalid <==>
              (there[i].key.dst == r.key.dst && there[i].id == r.id && !Hidden(there, i)))
  {
    hide FindById, Reports;
    ReportsExactly(rs, ip, me, gateway, Rerr(r.lastHop, r.key.dst, r.id));
    forall i | 0 <= i < |there| && there[i].key.dst == r.key.dst && there[i].id == r.id
      ensures !Hidden(there, i) <==> i == FindById(there, r.key.dst, r.id)
    {
    }
  }

  /** So a report changes nothing at a previous hop that has found the destination to be its neighbour since, with the
      number of the flow's route as its own. */
  lemma ReportMeetsNeighbour(now: nat)
    ensures var there := [NeighbourRoute(1, 7, 5, 0), Route(Key(9, 7, 8), 5, 2, 2, 2, 9, false, false, Active, 100)];
      SortedByDst(there) && UniqueKeys(there) && Reacted(there, 7, 5, 2, now) == there
  {
  }

  /** And it changes nothing at a previous hop that has missed the last reply, and knows an older route. */
  lemma ReportMeetsOlder(now: nat)
    ensures var there := [Route(Key(9, 7, 8), 5, 2, 2, 2, 9, false, false, Active, 100)];
      SortedByDst(there) && UniqueKeys(there) && Reacted(there, 7, 6, 2, now) == there
  {
  }
}
