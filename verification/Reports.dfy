/** Route errors (rerr.c): what a broken link does to the routes and whom it tells, and how the reports travel back to
    the sources of the traffic. */
module Reports {
  import opened Types
  import opened RouteTables
  import opened Routing
  import S = SourceLists

  /** The node speaks for the source of the route's traffic. */
  ghost predicate Speaks(r: Route, me: Ip, gateway: bool) {
    r.key.src == me || (gateway && r.key.src == S.NULL_IP)
  }

  /** The route leads others through the node `ip`. */
  ghost predicate Leads(r: Route, ip: Ip) {
    r.nextHop == ip && r.state != Invalid
  }

  /** A broken link invalidates exactly the valid routes through the lost node that were learned, for the delete period,
      and exactly the previous hops of those that carry the traffic of others are told. */
  lemma BreakExactly(rs: seq<Route>, ip: Ip, me: Ip, gateway: bool, now: nat)
    ensures |AllBroken(rs, ip, now)| == |rs|
    ensures forall i :: 0 <= i < |rs| ==>
      AllBroken(rs, ip, now)[i]
        == if Leads(rs[i], ip) && !rs[i].self && !rs[i].neigh
           then rs[i].(state := Invalid, lifetime := now + DELETE_PERIOD) else rs[i]
    ensures forall e ::
      e in Reports(rs, ip, me, gateway) <==>
        exists r :: r in rs && Leads(r, ip) && !r.self && !r.neigh && !Speaks(r, me, gateway)
                    && e == Rerr(r.lastHop, r.key.dst, r.id)
  {
    hide Reports;
    forall e
      ensures e in Reports(rs, ip, me, gateway) <==>
        exists r :: r in rs && Leads(r, ip) && !r.self && !r.neigh && !Speaks(r, me, gateway)
                    && e == Rerr(r.lastHop, r.key.dst, r.id)
    {
      ReportsExactly(rs, ip, me, gateway, e);
      assert forall r :: Reported(r, ip, me, gateway)
                         <==> (Leads(r, ip) && !r.self && !r.neigh && !Speaks(r, me, gateway));
    }
  }

  /** The route at position `i` is the one that a report about the destination and the id finds. */
  ghost predicate Found(rs: seq<Route>, i: nat, dst: Ip, id: nat) {
    i < |rs| && rs[i].key.dst == dst && rs[i].id == id && !Hidden(rs, i)
  }

  lemma FoundExactly(rs: seq<Route>, dst: Ip, id: nat)
    ensures forall i: nat :: Found(rs, i, dst, id) <==> i < |rs| && i == FindById(rs, dst, id)
  {
    hide FindById;
    forall i: nat
      ensures Found(rs, i, dst, id) <==> i < |rs| && i == FindById(rs, dst, id)
    {
    }
  }

  /** A report invalidates the route it finds, if that is valid and leads through the node it came from, and nothing
      else. */
  lemma ReactsExactly(rs: seq<Route>, dst: Ip, id: nat, from: Ip, now: nat)
    ensures |Reacted(rs, dst, id, from, now)| == |rs|
    ensures forall i :: 0 <= i < |rs| ==>
      Reacted(rs, dst, id, from, now)[i]
        == if Found(rs, i, dst, id) && Leads(rs[i], from)
           then rs[i].(state := Invalid, lifetime := now + DELETE_PERIOD) else rs[i]
  {
    hide FindById;
    FoundExactly(rs, dst, id);
  }

  /** A report goes on exactly if it finds a valid route through the node it came from that carries the traffic of
      others, and then it goes to the previous hop of that route. */
  lemma ForwardsExactly(rs: seq<Route>, dst: Ip, id: nat, from: Ip, me: Ip, gateway: bool, e: Rerr)
    ensures Forwarded(rs, dst, id, from, me, gateway) == Some(e) <==>
      exists i: nat :: Found(rs, i, dst, id) && Leads(rs[i], from) && !Speaks(rs[i], me, gateway)
                       && e == Rerr(rs[i].lastHop, dst, id)
  {
    hide FindById;
    FoundExactly(rs, dst, id);
    var k := FindById(rs, dst, id);
    assert k < |rs| ==> Found(rs, k, dst, id);
  }

  /** The nodes of a flow, from its source to the one before the lost node, with the routes of each and the position of
      the flow's own: every node passes to the next and remembers the one before. */
  ghost predicate Chain(p: seq<Ip>, tables: seq<seq<Route>>, at: seq<nat>, flow: Key, id: nat, lost: Ip) {
    && |p| == |tables| == |at| && |p| > 0 && p[0] == flow.src
    && (forall i :: 0 <= i < |p| ==> Link(p, tables[i], at[i], i, flow, id, lost))
  }

  ghost predicate Link(p: seq<Ip>, rs: seq<Route>, k: nat, i: nat, flow: Key, id: nat, lost: Ip)
    requires i < |p|
  {
    && Found(rs, k, flow.dst, id)
    && rs[k].key == flow && !rs[k].self && !rs[k].neigh
    && Leads(rs[k], if i + 1 < |p| then p[i + 1] else lost)
    && (i > 0 ==> p[i] != flow.src && rs[k].lastHop == p[i - 1])
  }

  /** When the last link of a flow breaks, the report travels all the way back: every node but the source sends it on to
      the node before, and every node invalidates its route. */
  lemma ReportTravels(p: seq<Ip>, tables: seq<seq<Route>>, at: seq<nat>, flow: Key, id: nat, lost: Ip, gateway: bool,
                      now: nat)
    requires Chain(p, tables, at, flow, id, lost) && flow.src != S.NULL_IP
    ensures var m := |p| - 1;
      && AllBroken(tables[m], lost, now)[at[m]].state == Invalid
      && (m > 0 ==> Rerr(p[m - 1], flow.dst, id) in Reports(tables[m], lost, p[m], gateway))
      && forall i :: 0 <= i < m ==>
           && Reacted(tables[i], flow.dst, id, p[i + 1], now)[at[i]].state == Invalid
           && Forwarded(tables[i], flow.dst, id, p[i + 1], p[i], gateway)
                == (if i > 0 then Some(Rerr(p[i - 1], flow.dst, id)) else None)
  {
    hide FindById, Reports;
    var m := |p| - 1;
    BreakExactly(tables[m], lost, p[m], gateway, now);
    assert Link(p, tables[m], at[m], m, flow, id, lost);
    assert tables[m][at[m]] in tables[m];
    forall i | 0 <= i < m
      ensures Reacted(tables[i], flow.dst, id, p[i + 1], now)[at[i]].state == Invalid
      ensures Forwarded(tables[i], flow.dst, id, p[i + 1], p[i], gateway)
           == (if i > 0 then Some(Rerr(p[i - 1], flow.dst, id)) else None)
    {
      assert Link(p, tables[i], at[i], i, flow, id, lost);
      FoundExactly(tables[i], flow.dst, id);
    }
  }
}
