/** The tables of a node, as the node keeps them, are the routes that the network model speaks of. */
module Refinement {
  import opened Types
  import opened RouteTables
  import opened Routing
  import N = Network
  import S = SourceLists
  import TR = TimedRemovals
  import C = Clock

  /** What the network model keeps of a route. */
  function AsEntry(r: Route): N.Entry {
    N.Entry(r.id, r.metric, r.hops, r.nextHop)
  }

  /** The table has a route with the key that was learned: one that is not of the node's own making, as those to itself
      and to its neighbours are. */
  ghost predicate HasLearned(rs: seq<Route>, key: Key) {
    exists i :: 0 <= i < |rs| && !rs[i].self && rs[i].key == key
  }

  /** Each key was learned once, and routes of the node's own making start at the node. */
  ghost predicate TableOk(rs: seq<Route>, n: Ip) {
    && SortedByDst(rs)
    && (forall i, j :: 0 <= i < j < |rs| && !rs[i].self && !rs[j].self ==> rs[i].key != rs[j].key)
    && (forall i :: 0 <= i < |rs| && rs[i].self ==> rs[i].key.src == n)
  }

  /** What is known of a route of the node's own making: it leads to the node itself, or is as it was made for a
      neighbour, or is what has been learned since. */
  ghost predicate OwnOk(net: N.Net, n: Ip, r: Route) {
    r.key.dst == n || (r.nextHop == S.NULL_IP && r.metric == 1) || N.Own(n, r.key, AsEntry(r)) in net.own
  }

  /** Node `n` of the network keeps its routes in the table `rs`, which also has routes of its own making. */
  ghost predicate Represents(net: N.Net, n: Ip, rs: seq<Route>) {
    && TableOk(rs, n)
    && (forall i :: 0 <= i < |rs| ==> Stored(net, n, rs[i]))
    && (forall key: Key :: (n, key) in net.tables ==> HasLearned(rs, key))
  }

  ghost predicate Stored(net: N.Net, n: Ip, r: Route) {
    if r.self then OwnOk(net, n, r)
    else (n, r.key) in net.tables && net.tables[(n, r.key)] == AsEntry(r) && r.nextHop != S.NULL_IP
  }

  /** At the start a node's table stands for an empty network. */
  lemma BootRepresents(net: N.Net, n: Ip)
    requires N.Init(net)
    ensures Represents(net, n, Boot(n).routes)
  {
  }

  /** No number is taken back, and no issue is forgotten. */
  ghost predicate Remembers(net: N.Net, net': N.Net) {
    && net.own <= net'.own && (forall n: Ip :: N.SeqNo(net', n) >= N.SeqNo(net, n))
    && forall n: Ip, id: nat :: (n, id) in net.issued ==>
         (n, id) in net'.issued && net'.issued[(n, id)] == net.issued[(n, id)]
  }

  /** The change is one at node `x`, and in what is in flight. */
  ghost predicate OnlyAt(net: N.Net, net': N.Net, x: Ip) {
    && net'.routing == net.routing && Remembers(net, net')
    && (forall n: Ip :: n != x ==> N.SeqNo(net', n) == N.SeqNo(net, n))
    && (forall n: Ip, key: Key :: n != x ==> ((n, key) in net.tables <==> (n, key) in net'.tables))
    && (forall n: Ip, key: Key :: n != x && (n, key) in net.tables ==> net'.tables[(n, key)] == net.tables[(n, key)])
  }

  /** What happens elsewhere in the network does not touch the table of the node. */
  lemma Elsewhere(net: N.Net, net': N.Net, x: Ip, n: Ip, rs: seq<Route>)
    requires Represents(net, n, rs) && OnlyAt(net, net', x) && n != x
    ensures Represents(net', n, rs)
  {
    hide TableOk, HasLearned, N.SeqNo;
    forall i | 0 <= i < |rs|
      ensures Stored(net', n, rs[i])
    {
      assert Stored(net, n, rs[i]);
    }
  }

  /** Nor does what happens at the node without touching its routes. */
  lemma SameTables(net: N.Net, net': N.Net, n: Ip, rs: seq<Route>)
    requires Represents(net, n, rs) && Remembers(net, net') && net'.tables == net.tables
    ensures Represents(net', n, rs)
  {
    hide TableOk, HasLearned, N.SeqNo;
    forall i | 0 <= i < |rs|
      ensures Stored(net', n, rs[i])
    {
      assert Stored(net, n, rs[i]);
    }
  }

  function WithRoute(net: N.Net, n: Ip, r: Route): N.Net {
    net.(tables := net.tables[(n, r.key) := AsEntry(r)])
  }

  lemma LearnedAt(rs: seq<Route>, k: nat)
    requires k < |rs| && !rs[k].self
    ensures HasLearned(rs, rs[k].key)
  {
  }

  lemma ReplaceRepresents(net: N.Net, n: Ip, rs: seq<Route>, k: nat, r: Route)
    requires Represents(net, n, rs) && k < |rs| && r.key == rs[k].key && r.self == rs[k].self
    requires if r.self then OwnOk(net, n, r) else r.nextHop != S.NULL_IP
    ensures Represents(if r.self then net else WithRoute(net, n, r), n, rs[k := r])
  {
    var rs' := rs[k := r];
    assert SameKeys(rs, rs');
    SameTable(rs, rs', n);
    assert forall i :: 0 <= i < |rs| && i != k && !rs[i].self && !r.self ==> rs[i].key != r.key;
    hide TableOk, HasLearned, OwnOk;
    assert forall i :: 0 <= i < |rs| ==> Stored(net, n, rs[i]);
    WithStored(net, n, r);
    if !r.self {
      LearnedAt(rs', k);
    }
  }

  lemma WithStored(net: N.Net, n: Ip, r: Route)
    ensures forall x: Route :: Stored(net, n, x) && (x.self || x.key != r.key) ==> Stored(WithRoute(net, n, r), n, x)
    ensures !r.self && r.nextHop != S.NULL_IP ==> Stored(WithRoute(net, n, r), n, r)
  {
  }

  lemma SameTable(rs: seq<Route>, rs': seq<Route>, n: Ip)
    requires SameKeys(rs, rs')
    ensures TableOk(rs, n) ==> TableOk(rs', n)
    ensures forall key: Key :: HasLearned(rs, key) ==> HasLearned(rs', key)
  {
    forall key: Key | HasLearned(rs, key)
      ensures HasLearned(rs', key)
    {
      var i :| 0 <= i < |rs| && !rs[i].self && rs[i].key == key;
      LearnedAt(rs', i);
    }
  }

  lemma InsertKeepsTable(rs: seq<Route>, n: Ip, r: Route)
    requires TableOk(rs, n) && (if r.self then r.key.src == n else !HasLearned(rs, r.key))
    ensures TableOk(Insert(rs, r), n)
    ensures forall key: Key :: HasLearned(rs, key) ==> HasLearned(Insert(rs, r), key)
  {
    hide PlaceFor, SortedByDst;
    InsertKeepsOrder(rs, r);
    var p := PlaceFor(rs, r.key.dst);
    var rs' := Insert(rs, r);
    forall key: Key | HasLearned(rs, key)
      ensures HasLearned(rs', key)
    {
      var i :| 0 <= i < |rs| && !rs[i].self && rs[i].key == key;
      LearnedAt(rs', if i < p then i else i + 1);
    }
  }

  lemma InsertRepresents(net: N.Net, n: Ip, rs: seq<Route>, r: Route)
    requires Represents(net, n, rs)
    requires if r.self then r.key.src == n && OwnOk(net, n, r) else !HasLearned(rs, r.key) && r.nextHop != S.NULL_IP
    ensures Represents(if r.self then net else WithRoute(net, n, r), n, Insert(rs, r))
  {
    InsertKeepsTable(rs, n, r);
    hide PlaceFor, TableOk, OwnOk;
    var p := PlaceFor(rs, r.key.dst);
    var rs' := Insert(rs, r);
    assert rs'[p] == r;
    assert forall i :: 0 <= i < |rs| && !rs[i].self && !r.self ==> rs[i].key != r.key;
    hide HasLearned;
    assert forall i :: 0 <= i < |rs| ==> Stored(net, n, rs[i]);
    WithStored(net, n, r);
    if !r.self {
      LearnedAt(rs', p);
    }
  }

  /** The search for the key meets a route of the node's own making, and a message would be learned there. */
  predicate OnOwn(rs: seq<Route>, key: Key) {
    Find(rs, key) < |rs| && rs[Find(rs, key)].self
  }

  /** That happens only to routes that start at the node. */
  lemma OwnStartsHere(net: N.Net, n: Ip, rs: seq<Route>, key: Key)
    requires Represents(net, n, rs) && OnOwn(rs, key)
    ensures key.src == n
  {
    hide Find;
  }

  lemma FoundIsLearned(net: N.Net, n: Ip, rs: seq<Route>, key: Key)
    requires Represents(net, n, rs) && !OnOwn(rs, key)
    ensures Find(rs, key) < |rs| <==> (n, key) in net.tables
  {
    hide Find, SortedByDst;
  }

  function AsNews(news: News): N.Entry {
    N.Entry(news.id, news.metric, news.hops, news.nextHop)
  }

  /** What the network remembers of news that is learned on a route of the node's own making. */
  function OnceLearned(net: N.Net, n: Ip, news: News): N.Net {
    net.(own := net.own + {N.Own(n, news.key, AsNews(news))})
  }

  /** What the network makes of the news: nothing, if a route of the node's own making rejects it. */
  function InNet(net: N.Net, n: Ip, rs: seq<Route>, news: News): N.Net {
    if !OnOwn(rs, news.key) then N.Install(net, n, news.key, AsNews(news))
    else if Rejects(rs[Find(rs, news.key)], news) then net
    else OnceLearned(net, n, news)
  }

  /** `rreq_aodv_route` accepts what the network model accepts, and installs the same route, whenever the source of
      the route can be listed. What is learned on a route of the node's own making is remembered apart. */
  lemma LearnRefinesInstall(net: N.Net, n: Ip, t: Tables, news: News, now: nat, junk: nat)
    requires Represents(net, n, t.routes) && !Strands(t, news) && news.nextHop != S.NULL_IP
    ensures var (t', ok) := Learn(t, n, news, now, junk);
      && Represents(InNet(net, n, t.routes, news), n, t'.routes)
      && (!OnOwn(t.routes, news.key) ==> (ok <==> N.Accepts(net, n, news.key, news.id, news.metric)))
      && (OnOwn(t.routes, news.key) ==> (ok <==> !Rejects(t.routes[Find(t.routes, news.key)], news)))
  {
    hide Find, Insert, S.Find, S.Exhausted, SortedByDst;
    var k := Find(t.routes, news.key);
    if k < |t.routes| {
      var r := Learned(t.routes[k], news, now);
      if r.self {
        SameTables(net, OnceLearned(net, n, news), n, t.routes);
        ReplaceRepresents(OnceLearned(net, n, news), n, t.routes, k, r);
      } else {
        ReplaceRepresents(net, n, t.routes, k, r);
      }
    } else {
      InsertRepresents(net, n, t.routes, Learned(Created(news.key, news.id, junk), news, now));
    }
    if !OnOwn(t.routes, news.key) {
      FoundIsLearned(net, n, t.routes, news.key);
    }
  }

  /** When the source cannot be listed the route is there all the same, without a metric or a next hop, and no route
      with the same id will replace it. */
  lemma StrandedRouteBlocks(t: Tables, me: Ip, news: News, again: News, now: nat, junk: nat)
    requires Strands(t, news) && again.key == news.key && again.id == news.id
    ensures var (t', ok) := Learn(t, me, news, now, junk);
      && !ok && Find(t'.routes, news.key) < |t'.routes| && t'.routes[Find(t'.routes, news.key)].state == Invalid
      && Learn(t', me, again, now, junk) == (t', false)
  {
    hide Find, S.Find, S.Exhausted, PlaceFor;
    var created := Created(news.key, news.id, junk);
    var t' := Learn(t, me, news, now, junk).0;
    assert t'.routes[PlaceFor(t.routes, news.key.dst)] == created;
    forall i | 0 <= i < |t'.routes| && t'.routes[i].key == news.key
      ensures t'.routes[i] == created
    {
    }
  }

  /** A sweep removes routes of the network model and changes none of those it leaves. */
  lemma SweepRefinesRemoval(net: N.Net, n: Ip, t: Tables, now: nat) returns (removed: set<Key>)
    requires Represents(net, n, t.routes)
    ensures forall key :: key in removed <==> exists r :: r in t.routes && r.key == key && Dead(r, now)
    ensures Represents(Without(net, n, removed), n, Sweep(t, n, now).routes)
  {
    hide Kept, SortedByDst, Dead, Stale, HasLearned;
    removed := set r | r in t.routes && Dead(r, now) :: r.key;
    SweepKeepsTable(t.routes, n, now);
    var rs' := Sweep(t, n, now).routes;
    var net' := Without(net, n, removed);
    forall i | 0 <= i < |rs'|
      ensures Stored(net', n, rs'[i])
    {
      var r := KeptFrom(t.routes, now, rs'[i]);
      assert Stored(net, n, r);
      if !r.self {
        AliveIsNotRemoved(t.routes, n, now, r, removed);
      }
    }
    forall key: Key | (n, key) in net'.tables
      ensures HasLearned(rs', key)
    {
      LearnedStays(t.routes, now, key);
    }
  }

  function Without(net: N.Net, n: Ip, removed: set<Key>): N.Net {
    net.(tables := net.tables - (set key | key in removed :: (n, key)))
  }

  lemma AliveIsNotRemoved(rs: seq<Route>, n: Ip, now: nat, r: Route, removed: set<Key>)
    requires TableOk(rs, n) && r in rs && !r.self && !Dead(r, now)
    requires removed == set r | r in rs && Dead(r, now) :: r.key
    ensures r.key !in removed
  {
  }

  /** A key that was learned is still there after a sweep unless its route was dead. */
  lemma LearnedStays(rs: seq<Route>, now: nat, key: Key)
    requires HasLearned(rs, key)
    ensures HasLearned(Kept(rs, now), key) || exists r :: r in rs && r.key == key && Dead(r, now)
  {
    hide Dead, Stale, Kept;
    var i :| 0 <= i < |rs| && !rs[i].self && rs[i].key == key;
    if !Dead(rs[i], now) {
      KeptHas(rs, now, rs[i]);
      var j :| 0 <= j < |Kept(rs, now)| && Kept(rs, now)[j] == Fate(rs[i], now);
      LearnedAt(Kept(rs, now), j);
    }
  }

  lemma {:induction false} SweepKeepsTable(rs: seq<Route>, n: Ip, now: nat)
    requires TableOk(rs, n)
    ensures TableOk(Kept(rs, now), n)
  {
    hide Dead, Stale;
    if rs != [] {
      var init, last := rs[..|rs| - 1], rs[|rs| - 1];
      SweepKeepsTable(init, n, now);
      forall i | 0 <= i < |Kept(init, now)|
        ensures Kept(init, now)[i].key.dst <= last.key.dst
        ensures !Kept(init, now)[i].self && !last.self ==> Kept(init, now)[i].key != last.key
      {
        var r := KeptFrom(init, now, Kept(init, now)[i]);
      }
    }
  }

  /** Nothing else that happens at a node changes what the network model keeps. */
  lemma OthersRefineNothing(net: N.Net, n: Ip, t: Tables, e: Event, now: nat)
    requires Represents(net, n, t.routes) && !e.EventLearn? && !e.EventSweep?
    ensures Represents(net, n, After(t, n, e, now).routes)
  {
    hide Find, FindById, S.Find, SortedByDst, Insert;
    if e.EventNeighbour? {
      InsertRepresents(net, n, t.routes, NeighbourRoute(n, e.ip, e.id, e.junk));
    } else {
      var rs' := After(t, n, e, now).routes;
      EventSameKeys(t, n, e, now);
      SameTable(t.routes, rs', n);
      forall i | 0 <= i < |rs'|
        ensures Stored(net, n, rs'[i])
      {
        assert Stored(net, n, t.routes[i]);
      }
    }
  }

  /** What a search by id that ended at position `k` has come up with, in the terms of the network. */
  function AsHit(rs: seq<Route>, k: nat): N.Hit {
    if k >= |rs| then N.Miss
    else if rs[k].self then N.Near
    else N.Hit(rs[k].key)
  }

  /** `find_aodv_route_by_id` answers as the network model allows. A route of the node's own making that it ends on is
      as it was made, or has an id of its key. */
  lemma FindByIdRefines(net: N.Net, n: Ip, rs: seq<Route>, dst: Ip, id: nat)
    requires Represents(net, n, rs)
    ensures var k := FindById(rs, dst, id);
      && N.Searched(net, n, dst, id, AsHit(rs, k))
      && (k < |rs| ==> Stored(net, n, rs[k]))
  {
    hide FindById, TableOk;
    var k := FindById(rs, dst, id);
    if k == |rs| {
      forall key: Key | key.dst == dst && (n, key) in net.tables
        ensures net.tables[(n, key)].id != id
      {
        assert HasLearned(rs, key);
        var i :| 0 <= i < |rs| && !rs[i].self && rs[i].key == key;
        assert Stored(net, n, rs[i]);
      }
    } else {
      assert Stored(net, n, rs[k]);
    }
  }

  // ---- Sweeps over whole runs ----

  /** What has happened at a node: its tables, the events, their times, and where the states are in a run of the
      network. */
  datatype History = History(ts: seq<Tables>, es: seq<Event>, clock: seq<nat>, at: seq<nat>)

  /** The history of node `n` belongs to the run of the network. Every source it learned of could be listed. */
  ghost predicate Belongs(nets: seq<N.Net>, clock: seq<nat>, n: Ip, h: History)
    requires |nets| == |clock|
  {
    && Run(h.ts, h.es, h.clock, n) && |h.at| == |h.ts|
    && (forall i :: 0 <= i < |h.es| && h.es[i].EventLearn? ==> !Strands(h.ts[i], h.es[i].news))
    && (forall i, j :: 0 <= i < j < |h.at| ==> h.at[i] <= h.at[j])
    && (forall i :: 0 <= i < |h.at| ==> h.at[i] < |nets| && Represents(nets[h.at[i]], n, h.ts[i].routes))
    && (forall i :: 0 <= i < |h.es| ==> h.clock[i] == clock[h.at[i]])
  }

  /** The removal at position `i` is part of sweep number `j` of the node's history. */
  ghost predicate PartOfSweep(nets: seq<N.Net>, clock: seq<nat>, n: Ip, key: Key, i: nat, h: History, j: nat)
    requires |nets| == |clock| && i < |nets|
  {
    && Belongs(nets, clock, n, h) && j < |h.es| && h.es[j] == EventSweep
    && h.at[j] <= i && h.clock[j] == clock[i] && TR.SameRoute(nets[h.at[j]], nets[i], n, key)
    && (n, key) !in nets[h.at[j + 1]].tables
  }

  /** Such a removal is never hurried: it comes later than the delete period after a state in which the node had the
      route with the same id. */
  lemma SweepIsUnhurried(nets: seq<N.Net>, clock: seq<nat>, n: Ip, key: Key, i: nat, h: History, j: nat)
    requires |nets| == |clock| && (forall a, b :: 0 <= a < b < |clock| ==> clock[a] <= clock[b])
    requires i < |nets| && PartOfSweep(nets, clock, n, key, i, h, j)
    ensures exists a :: 0 <= a <= i && clock[a] + DELETE_PERIOD < clock[i] && TR.SameRoute(nets[a], nets[i], n, key)
  {
    assert |h.ts| == |h.es| + 1 && |h.clock| == |h.es|;
    hide Run, After, Dormant, Strands;
    var r := LearnedFrom(nets[h.at[j]], n, h.ts[j].routes, key);
    forall r' | r' in h.ts[j + 1].routes && r'.key == key
      ensures r'.self
    {
      StoredIn(nets[h.at[j + 1]], n, h.ts[j + 1].routes, r');
    }
    hide Represents;
    var b := RemovedLate(h.ts, h.es, h.clock, n, j, r);
    assert !Unfilled(h.ts[b], h.es[b], key);
    var v :| v in h.ts[b].routes && !v.self && v.key == key && v.id == r.id && v.state != Invalid;
    StoredIn(nets[h.at[b]], n, h.ts[b].routes, v);
    assert clock[h.at[b]] <= clock[i];
    LaterThan(clock[h.at[b]], clock[i]);
    assert TR.SameRoute(nets[h.at[b]], nets[i], n, key);
  }

  lemma LaterThan(before: nat, now: nat)
    requires before <= now && C.TimeBefore(before + DELETE_PERIOD, now)
    ensures before + DELETE_PERIOD < now
  {
    if now <= before + DELETE_PERIOD {
      C.TimeBeforeIsOrder(before + DELETE_PERIOD, now);
    }
  }

  lemma StoredIn(net: N.Net, n: Ip, rs: seq<Route>, r: Route)
    requires Represents(net, n, rs) && r in rs
    ensures Stored(net, n, r)
  {
  }

  /** The route of the table that a route of the network stands for. */
  lemma LearnedFrom(net: N.Net, n: Ip, rs: seq<Route>, key: Key) returns (r: Route)
    requires Represents(net, n, rs) && (n, key) in net.tables
    ensures r in rs && !r.self && r.key == key && net.tables[(n, key)] == AsEntry(r)
  {
    assert HasLearned(rs, key);
    var i :| 0 <= i < |rs| && !rs[i].self && rs[i].key == key;
    assert Stored(net, n, rs[i]);
    r := rs[i];
  }

  /** So if all removals of a run are parts of sweeps, the run is unhurried; and where messages are prompt, it makes no
      loops. */
  lemma SweepsAreUnhurried(nets: seq<N.Net>, steps: seq<N.Step>, clock: seq<nat>)
    requires TR.TimedRun(nets, steps, clock) && (forall a, b :: 0 <= a < b < |clock| ==> clock[a] <= clock[b])
    requires forall i :: 0 <= i < |steps| && steps[i].StepRemove? ==>
      exists h, j :: PartOfSweep(nets, clock, steps[i].n, steps[i].key, i, h, j)
    ensures TR.Unhurried(nets, steps, clock)
  {
    hide N.NextStep, PartOfSweep;
    forall i | 0 <= i < |steps| && steps[i].StepRemove?
      ensures exists a :: 0 <= a <= i && clock[a] + DELETE_PERIOD <= clock[i]
                          && TR.SameRoute(nets[a], nets[i], steps[i].n, steps[i].key)
    {
      var h, j :| PartOfSweep(nets, clock, steps[i].n, steps[i].key, i, h, j);
      SweepIsUnhurried(nets, clock, steps[i].n, steps[i].key, i, h, j);
    }
  }
}
