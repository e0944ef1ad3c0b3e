/** The routing state of a node as it is kept: the table and the list of sources, and the operations that work on
    both (aodv_route.c, rerr.c). */
module Routers {
  import opened Types
  import opened Clock
  import opened RouteTables
  import opened Routing
  import S = SourceLists

  class Router {
    const me: Ip
    const gateway: bool
    const table: RouteTable
    const sources: S.SourceList

    ghost predicate Valid()
      reads table, table.Repr, sources, sources.Repr
    {
      table.Valid() && sources.Valid()
    }

    ghost function Value(): Tables
      reads table, sources
    {
      Tables(table.Contents, sources.Contents)
    }

    constructor (me: Ip, gateway: bool)
      requires me != S.NULL_IP
      ensures Valid() && Value() == Boot(me) && this.me == me && this.gateway == gateway
      ensures fresh(table) && fresh(table.Repr) && fresh(sources) && fresh(sources.Repr)
    {
      this.me, this.gateway := me, gateway;
      var routes := new RouteTable();
      var list := new S.SourceList();
      table, sources := routes, list;
      new;
      var local := new Node(Boot(me).routes[0]);
      table.InsertRoute(local);
      var entry := sources.InsertSource(me, me);
      assert PlaceFor([], me) == 0;
      assert S.FreeFrom([], 1) == 1;
    }

    /** `route_aodv_neigh`: the route to a neighbour is inserted without a search. */
    method RouteNeighbour(ip: Ip, id: nat, now: nat, junk: nat)
      requires Valid()
      modifies table, table.Repr
      ensures Valid() && Value() == After(old(Value()), me, EventNeighbour(ip, id, junk), now)
    {
      hide RouteTable.Valid, S.SourceList.Valid, Insert;
      var route := new Node(NeighbourRoute(me, ip, id, junk));
      table.InsertRoute(route);
    }

    /** `rreq_aodv_route`. */
    method Learn(news: News, now: nat, junk: nat) returns (ok: bool)
      requires Valid()
      modifies table, table.Repr, sources, sources.Repr
      ensures Valid() && (Value(), ok) == Routing.Learn(old(Value()), me, news, now, junk)
      ensures fresh(table.Repr - old(table.Repr)) && fresh(sources.Repr - old(sources.Repr))
      ensures forall j :: 0 <= j < |old(table.Nodes)| ==>
        && Moved(old(table.Contents), news.key, j) < |table.Nodes|
        && table.Nodes[Moved(old(table.Contents), news.key, j)] == old(table.Nodes)[j]
    {
      hide Find, PlaceFor, S.Find, S.Insert, RouteTable.Valid, S.SourceList.Valid;
      var tmpRoute, k := table.FindRoute(news.key);
      if tmpRoute == null {
        ok := LearnNew(news, now, junk);
      } else {
        if tmpRoute.route.id > news.id {
          return false;
        }
        if news.id == tmpRoute.route.id && news.metric >= tmpRoute.route.metric {
          return false;
        }
        table.Update(tmpRoute, k, Learned(tmpRoute.route, news, now));
        ok := true;
      }
    }

    method LearnNew(news: News, now: nat, junk: nat) returns (ok: bool)
      requires Valid() && Find(table.Contents, news.key) == |table.Contents|
      modifies table, table.Repr, sources, sources.Repr
      ensures Valid() && (Value(), ok) == Routing.Learn(old(Value()), me, news, now, junk)
      ensures fresh(table.Repr - old(table.Repr)) && fresh(sources.Repr - old(sources.Repr))
      ensures forall j :: 0 <= j < |old(table.Nodes)| ==>
        && Moved(old(table.Contents), news.key, j) < |table.Nodes|
        && table.Nodes[Moved(old(table.Contents), news.key, j)] == old(table.Nodes)[j]
    {
      hide Find, PlaceFor, S.Find, Insert, S.Insert, Acquire, RouteTable.Valid, S.SourceList.Valid;
      var created := Created(news.key, news.id, junk);
      var tmpRoute := new Node(created);
      table.InsertRoute(tmpRoute);
      ghost var k := PlaceFor(old(table.Contents), news.key.dst);
      ok := AddRoute(news.key.src);
      if ok {
        table.Update(tmpRoute, k, Learned(tmpRoute.route, news, now));
        InsertUpdated(old(table.Contents), created, Learned(created, news, now));
      }
    }

    /** Counts a route of a source, after listing the source if necessary. */
    method AddRoute(src: Ip) returns (ok: bool)
      requires sources.Valid()
      modifies sources, sources.Repr
      ensures sources.Valid() && sources.Repr >= old(sources.Repr) && fresh(sources.Repr - old(sources.Repr))
      ensures ok <==> Acquire(old(sources.Contents), src, me).Some?
      ensures sources.Contents == if ok then Acquire(old(sources.Contents), src, me).value else old(sources.Contents)
    {
      hide S.Find, S.Insert;
      var entry, k := sources.FindSource(src);
      if entry == null {
        entry := sources.InsertSource(src, me);
        if entry == null {
          return false;
        }
        k := 0;
      }
      sources.SetRoutes(entry, k, entry.source.routes + 1);
      ok := true;
    }

    /** `rrep_aodv_route` on a route of the table. */
    method Confirm(rep: Node, ghost k: nat, now: nat) returns (ok: bool)
      requires Valid() && table.Found(rep, k)
      modifies table, table.Repr, sources
      ensures Valid() && (Value(), ok) == Routing.Confirm(old(Value()), k, now)
      ensures table.Found(rep, k) && table.Repr == old(table.Repr) && table.Nodes == old(table.Nodes)
    {
      hide S.Find, RouteTable.Valid, S.SourceList.Valid;
      var entry, e := sources.FindSource(rep.route.key.src);
      if entry == null {
        return false;
      }
      table.Update(rep, k, rep.route.(state := Replied, lifetime := now + DELETE_PERIOD));
      ok := true;
    }

    /** A packet leaves by a valid route of the table. */
    method Use(n: Node, ghost k: nat, now: nat)
      requires Valid() && table.Found(n, k) && n.route.state != Invalid
      modifies table, table.Repr
      ensures Valid() && Value() == Used(old(Value()), k, now) && table.Repr == old(table.Repr)
    {
      hide RouteTable.Valid, S.SourceList.Valid;
      if n.route.state == Replied {
        table.Update(n, k, n.route.(state := Active));
      }
      table.Update(n, k, n.route.(lifetime := now + ACTIVE_ROUTE_TIMEOUT));
    }

    /** Notes the previous hop of a route of the table. */
    method SetLastHop(n: Node, ghost k: nat, hop: Ip, now: nat)
      requires Valid() && table.Found(n, k)
      modifies table, table.Repr
      ensures Valid() && Value() == After(old(Value()), me, EventLastHop(k, hop), now)
      ensures table.Repr == old(table.Repr) && table.Nodes == old(table.Nodes)
    {
      hide RouteTable.Valid, S.SourceList.Valid;
      table.Update(n, k, n.route.(lastHop := hop));
    }

    /** `expire_aodv_route`. */
    method Expire(n: Node, ghost k: nat, now: nat)
      requires Valid() && table.Found(n, k)
      modifies table, table.Repr
      ensures Valid() && table.Found(n, k)
      ensures table.Contents == old(table.Contents)[k := Expired(old(table.Contents)[k], now)]
      ensures table.Nodes == old(table.Nodes) && table.Repr == old(table.Repr)
    {
      hide RouteTable.Valid, S.SourceList.Valid;
      table.Update(n, k, Expired(n.route, now));
    }

    /** The part of the sweep that gives up a route of a source. */
    method ReleaseSource(src: Ip)
      requires sources.Valid()
      modifies sources, sources.Repr
      ensures sources.Valid() && sources.Contents == Release(old(sources.Contents), src, me)
      ensures sources.Repr <= old(sources.Repr)
    {
      hide S.Find, S.Delete;
      var entry, k := sources.FindSource(src);
      if entry != null {
        sources.SetRoutes(entry, k, entry.source.routes - 1);
        if entry.source.routes <= 0 && entry.source.ip != me {
          sources.DeleteSource(src);
        } else if entry.source.routes <= 0 && entry.source.ip == me {
          sources.SetRoutes(entry, k, 1);
        }
      }
    }

    /** The sweep of one route. */
    method FlushRoute(tmpRoute: Node, ghost k: nat, now: nat) returns (next: Node?)
      requires Valid() && table.Found(tmpRoute, k)
      modifies table, table.Repr, sources, sources.Repr
      ensures Valid() && table.Repr <= old(table.Repr) && sources.Repr <= old(sources.Repr)
      ensures (table.Contents, sources.Contents)
           == SweptAt(old(table.Contents), old(sources.Contents), k, me, now)
      ensures table.Found(next, if Dead(old(table.Contents)[k], now) then k else k + 1)
    {
      hide RouteTable.Valid, S.SourceList.Valid, TimeBefore, Release;
      if TimeBefore(tmpRoute.route.lifetime, now) && !tmpRoute.route.self {
        if tmpRoute.route.state != Invalid {
          Expire(tmpRoute, k, now);
          next := table.Next(tmpRoute, k);
        } else {
          ReleaseSource(tmpRoute.route.key.src);
          next := tmpRoute.next;
          table.RemoveRoute(tmpRoute, k);
        }
      } else {
        next := table.Next(tmpRoute, k);
      }
    }

    /** `flush_aodv_route_table`. */
    method Flush(now: nat)
      requires Valid()
      modifies table, table.Repr, sources, sources.Repr
      ensures Valid() && Value() == Sweep(old(Value()), me, now)
    {
      hide RouteTable.Valid, S.SourceList.Valid, Kept, Freed, SweptAt, Dead;
      ghost var rs, ss := table.Contents, sources.Contents;
      ghost var j := 0;
      SweepEnds(rs, ss, me, now);
      var tmpRoute := table.First();
      while tmpRoute != null
        invariant Valid() && j <= |rs| && table.Repr <= old(table.Repr) && sources.Repr <= old(sources.Repr)
        invariant table.Contents == Kept(rs[..j], now) + rs[j..]
        invariant sources.Contents == Freed(rs[..j], ss, me, now)
        invariant table.Found(tmpRoute, |Kept(rs[..j], now)|)
        decreases |rs| - j
      {
        SweepStep(rs, ss, me, now, j);
        tmpRoute := FlushRoute(tmpRoute, |Kept(rs[..j], now)|, now);
        j := j + 1;
      }
    }

    /** What a broken link to `ip` does to one route, and whom it tells. */
    method BreakRoute(tmpRoute: Node, ghost k: nat, ip: Ip, now: nat) returns (sent: seq<Rerr>)
      requires Valid() && table.Found(tmpRoute, k)
      modifies table, table.Repr
      ensures Valid() && table.Found(tmpRoute, k) && table.Repr == old(table.Repr)
      ensures k < |old(table.Contents)|
      ensures table.Contents == old(table.Contents)[k := Broken(old(table.Contents)[k], ip, now)]
      ensures var r := old(table.Contents)[k];
        sent == if Reported(r, ip, me, gateway) then [Rerr(r.lastHop, r.key.dst, r.id)] else []
    {
      hide RouteTable.Valid, S.SourceList.Valid;
      sent := [];
      var r := tmpRoute.route;
      if r.nextHop == ip && !r.self && !r.neigh {
        if !IsSource(r.key.src, me, gateway) {
          if r.state != Invalid {
            sent := [Rerr(r.lastHop, r.key.dst, r.id)];
          }
        }
        if r.state != Invalid {
          Expire(tmpRoute, k, now);
        }
      }
    }

    /** `gen_rerr`: the messages it sends are `sent`, in order. */
    method GenRerr(ip: Ip, now: nat) returns (sent: seq<Rerr>)
      requires Valid()
      modifies table, table.Repr
      ensures Valid() && table.Contents == AllBroken(old(table.Contents), ip, now)
      ensures sent == Reports(old(table.Contents), ip, me, gateway)
    {
      hide RouteTable.Valid, S.SourceList.Valid, AllBroken, Reports;
      ghost var rs := table.Contents;
      ghost var j := 0;
      assert rs[..0] == [] && rs[..|rs|] == rs;
      sent := [];
      BreakEnds(rs, ip, me, gateway, now);
      var tmpRoute := table.First();
      while tmpRoute != null
        invariant Valid() && j <= |rs| && table.Repr <= old(table.Repr)
        invariant table.Contents == AllBroken(rs[..j], ip, now) + rs[j..]
        invariant sent == Reports(rs[..j], ip, me, gateway)
        invariant table.Found(tmpRoute, j)
        decreases |rs| - j
      {
        BreakStep(rs, ip, me, gateway, now, j);
        var reports := BreakRoute(tmpRoute, j, ip, now);
        sent := sent + reports;
        tmpRoute := table.Next(tmpRoute, j);
        j := j + 1;
      }
    }

    /** The part of `recv_rerr` that concerns routes. */
    method RecvRerr(dst: Ip, id: nat, from: Ip, now: nat) returns (sent: Option<Rerr>)
      requires Valid()
      modifies table, table.Repr
      ensures Valid() && table.Contents == Reacted(old(table.Contents), dst, id, from, now)
      ensures sent == Forwarded(old(table.Contents), dst, id, from, me, gateway)
    {
      hide RouteTable.Valid, S.SourceList.Valid, FindById;
      sent := None;
      var tmpRoute, k := table.FindRouteById(dst, id);
      if tmpRoute != null && tmpRoute.route.nextHop == from {
        var r := tmpRoute.route;
        if !IsSource(r.key.src, me, gateway) {
          if r.state != Invalid {
            sent := Some(Rerr(r.lastHop, r.key.dst, r.id));
          }
        }
        if r.state != Invalid {
          Expire(tmpRoute, k, now);
        }
      }
    }
  }

  lemma BreakEnds(rs: seq<Route>, ip: Ip, me: Ip, gateway: bool, now: nat)
    ensures rs == AllBroken(rs[..0], ip, now) + rs[0..] && Reports(rs[..0], ip, me, gateway) == []
    ensures AllBroken(rs, ip, now) + rs[|rs|..] == AllBroken(rs, ip, now)
  {
  }

  /** The tables after the sweep of the route at position `k`. */
  function SweptAt(rs: seq<Route>, ss: seq<S.Source>, k: nat, me: Ip, now: nat): (seq<Route>, seq<S.Source>)
    requires k < |rs|
  {
    if Dead(rs[k], now) then (RemoveAt(rs, k), Release(ss, rs[k].key.src, me))
    else if Stale(rs[k], now) then (rs[k := Expired(rs[k], now)], ss)
    else (rs, ss)
  }

  lemma SweepEnds(rs: seq<Route>, ss: seq<S.Source>, me: Ip, now: nat)
    ensures rs == Kept(rs[..0], now) + rs[0..] && ss == Freed(rs[..0], ss, me, now) && |Kept(rs[..0], now)| == 0
    ensures rs[..|rs|] == rs && Kept(rs, now) + rs[|rs|..] == Kept(rs, now)
  {
  }

  /** The sweep goes one route at a time. */
  lemma SweepStep(rs: seq<Route>, ss: seq<S.Source>, me: Ip, now: nat, j: nat)
    requires j < |rs|
    ensures var kept := Kept(rs[..j], now);
      && (kept + rs[j..])[|kept|] == rs[j]
      && var swept := SweptAt(kept + rs[j..], Freed(rs[..j], ss, me, now), |kept|, me, now);
      && swept.0 == Kept(rs[..j + 1], now) + rs[j + 1..] && swept.1 == Freed(rs[..j + 1], ss, me, now)
      && |Kept(rs[..j + 1], now)| == if Dead(rs[j], now) then |kept| else |kept| + 1
  {
    hide TimeBefore, Release;
    assert rs[..j + 1][..j] == rs[..j];
    var kept, r, rest := Kept(rs[..j], now), rs[j], rs[j + 1..];
    SpliceAt(kept, r, rest, Expired(r, now));
    assert rs[j..] == [r] + rest && kept + [] == kept;
    assert Kept(rs[..j + 1], now)
        == if Dead(r, now) then kept else if Stale(r, now) then kept + [Expired(r, now)] else kept + [r];
    hide Kept;
  }

  lemma SpliceAt(a: seq<Route>, r: Route, b: seq<Route>, r': Route)
    ensures (a + ([r] + b))[|a|] == r
    ensures RemoveAt(a + ([r] + b), |a|) == a + b
    ensures (a + ([r] + b))[|a| := r'] == (a + [r']) + b
    ensures a + ([r] + b) == (a + [r]) + b
  {
  }

  lemma BreakStep(rs: seq<Route>, ip: Ip, me: Ip, gateway: bool, now: nat, j: nat)
    requires j < |rs|
    ensures var cur := AllBroken(rs[..j], ip, now) + rs[j..];
      && cur[j] == rs[j]
      && AllBroken(rs[..j + 1], ip, now) + rs[j + 1..] == cur[j := Broken(rs[j], ip, now)]
    ensures Reports(rs[..j + 1], ip, me, gateway) == Reports(rs[..j], ip, me, gateway)
      + (if Reported(rs[j], ip, me, gateway) then [Rerr(rs[j].lastHop, rs[j].key.dst, rs[j].id)] else [])
  {
    assert rs[..j + 1][..j] == rs[..j];
  }
}
