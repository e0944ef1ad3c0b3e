/** Loop freedom: in every reachable state of the network, following next hops never revisits a node. */
module LoopFreedom {
  import opened Types
  import opened Metrics
  import opened Network

  /** What every step other than a removal does to the state it starts from. */
  ghost predicate Improves(net: Net, net': Net) {
    && net'.routing == net.routing
    && (forall n :: SeqNo(net, n) <= SeqNo(net', n))
    && (forall k :: k in net.issued ==> k in net'.issued && net'.issued[k] == net.issued[k])
    && (forall n: Ip, k: Key :: (n, k) in net.tables ==> BetterEntry(net, net', n, k))
    && (forall n: Ip, k: Key :: (n, k) in net'.tables && (n, k) !in net.tables ==>
          Carried(net, k, net'.tables[(n, k)].id))
    && (forall m :: m in net'.flight ==> Fresh(net, m) || Carried(net, RouteKey(m), m.id))
  }

  ghost predicate BetterEntry(net: Net, net': Net, n: Ip, k: Key)
    requires (n, k) in net.tables
  {
    && (n, k) in net'.tables
    && AtLeast(net'.tables[(n, k)].id, net'.tables[(n, k)].metric, net.tables[(n, k)].id, net.tables[(n, k)].metric)
  }

  ghost predicate Carried(net: Net, k: Key, id: nat) {
    exists m :: m in net.flight && RouteKey(m) == k && m.id == id
  }

  ghost predicate Fresh(net: Net, m: Msg) {
    m.id > SeqNo(net, RouteKey(m).dst)
  }

  lemma NoneOldKept(net: Net, net': Net, k: Key, id: nat)
    requires Improves(net, net') && NoneOld(net, k, id) && id <= SeqNo(net, k.dst)
    ensures NoneOld(net', k, id)
  {
    forall m | m in net'.flight && RouteKey(m) == k
      ensures m.id > id
    {
      assert Fresh(net, m) || Carried(net, RouteKey(m), m.id);
    }
  }

  /** Who is ahead stays ahead. */
  lemma AheadKept(net: Net, net': Net, p: Ip, k: Key, id: nat, metric: nat)
    requires Improves(net, net') && Ahead(net, p, k, id, metric) && id <= SeqNo(net, k.dst)
    ensures Ahead(net', p, k, id, metric)
  {
    if (p, k) in net.tables {
      assert BetterEntry(net, net', p, k);
    } else if p != k.dst {
      NoneOldKept(net, net', k, id);
      if (p, k) in net'.tables {
        assert Carried(net, k, net'.tables[(p, k)].id);
      }
    }
  }

  /** An entry that a step does not touch keeps its part of the invariant. */
  lemma EntryKept(net: Net, net': Net, n: Ip, k: Key)
    requires Improves(net, net') && (n, k) in net.tables && EntryOk(net, n, k) && NextOk(net, n, k)
    requires (n, k) in net'.tables && net'.tables[(n, k)] == net.tables[(n, k)]
    ensures EntryOk(net', n, k) && NextOk(net', n, k)
  {
    var e := net.tables[(n, k)];
    AheadKept(net, net', e.nextHop, k, e.id, e.metric);
  }

  /** So does what was learned on a route of a node's own making. */
  lemma OwnKept(net: Net, net': Net, o: Own)
    requires Improves(net, net') && OwnOk(net, o)
    ensures OwnOk(net', o)
  {
    AheadKept(net, net', o.entry.nextHop, o.key, o.entry.id, o.entry.metric);
  }

  /** So does a message that stays in flight. */
  lemma MsgKept(net: Net, net': Net, m: Msg)
    requires Improves(net, net') && MsgOk(net, m) && SenderOk(net, m) && RelayOk(net, m)
    ensures MsgOk(net', m) && SenderOk(net', m) && RelayOk(net', m)
  {
    var k := RouteKey(m);
    if m.from != k.dst {
      assert BetterEntry(net, net', m.from, k);
    }
    if m.Rrep? {
      AheadKept(net, net', m.to, Reverse(m.flow), m.srcId, m.left);
    }
  }

  /** The invariant after a step that touches at most one entry. */
  lemma InvKept(net: Net, net': Net, n: Ip, k: Key)
    requires Inv(net) && Improves(net, net') && IssuedInPast(net')
    requires forall n': Ip, k': Key :: (n', k') != (n, k) && (n', k') in net'.tables ==>
               (n', k') in net.tables && net'.tables[(n', k')] == net.tables[(n', k')]
    requires (n, k) in net'.tables ==> EntryOk(net', n, k) && NextOk(net', n, k)
    requires forall o :: o in net'.own ==> o in net.own || OwnOk(net', o)
    requires forall m :: m in net'.flight ==>
               m in net.flight || (MsgOk(net', m) && SenderOk(net', m) && RelayOk(net', m))
    ensures Inv(net')
  {
    forall n': Ip, k': Key | (n', k') in net'.tables
      ensures EntryOk(net', n', k') && NextOk(net', n', k')
    {
      if (n', k') != (n, k) {
        EntryKept(net, net', n', k');
      }
    }
    forall o | o in net'.own
      ensures OwnOk(net', o)
    {
      if o in net.own {
        OwnKept(net, net', o);
      }
    }
    forall m | m in net'.flight
      ensures MsgOk(net', m) && SenderOk(net', m) && RelayOk(net', m)
    {
      if m in net.flight {
        MsgKept(net, net', m);
      }
    }
  }

  lemma DropInv(net: Net, i: nat)
    requires Inv(net) && i < |net.flight|
    ensures Improves(net, Drop(net, i)) && Inv(Drop(net, i))
  {
    var net' := Drop(net, i);
    forall m | m in net'.flight
      ensures m in net.flight && Carried(net, RouteKey(m), m.id)
    {
    }
    InvKept(net, net', 0, Key(0, 0, 0));
  }

  lemma OriginateInv(net: Net, flow: Key, audience: seq<Ip>)
    requires Inv(net) && flow.src != flow.dst && flow.src !in audience
    ensures Improves(net, Originate(net, flow, audience)) && Inv(Originate(net, flow, audience))
  {
    var net' := Originate(net, flow, audience);
    var id := SeqNo(net, flow.src) + 1;
    var copies := Broadcast(flow.src, audience, NET_DIAMETER, flow, id, 0, 0);
    forall m | m in net'.flight
      ensures m in net.flight || (Fresh(net, m) && MsgOk(net', m) && SenderOk(net', m) && RelayOk(net', m))
      ensures Fresh(net, m) || Carried(net, RouteKey(m), m.id)
    {
      if m in net.flight {
        assert Carried(net, RouteKey(m), m.id);
      } else {
        assert m in copies;
      }
    }
    InvKept(net, net', 0, Key(0, 0, 0));
  }

  /** The reply that `gen_rrep` sends along a route. */
  function FirstReply(net: Net, flow: Key, route: Entry): Msg {
    Rrep(route.nextHop, flow.dst, flow, SeqNo(net, flow.dst) + 1, route.id, 0, route.metric, route.metric)
  }

  lemma AnswerImproves(net: Net, flow: Key, route: Entry)
    requires IssuedInPast(net)
    ensures var net' := Answer(net, flow, route);
      && Improves(net, net') && IssuedInPast(net') && Reverse(Reverse(flow)) == flow
      && forall m :: m in net'.flight ==> m in net.flight || m == FirstReply(net, flow, route)
  {
    forall m | m in Answer(net, flow, route).flight
      ensures m in net.flight || m == FirstReply(net, flow, route)
      ensures Fresh(net, m) || Carried(net, RouteKey(m), m.id)
    {
      if m in net.flight {
        assert Carried(net, RouteKey(m), m.id);
      }
    }
  }

  lemma AnswerInv(net: Net, flow: Key, route: Entry)
    requires Inv(net) && Sensible(net, flow.dst, Reverse(flow), route)
    requires Ahead(net, route.nextHop, Reverse(flow), route.id, route.metric)
    ensures Improves(net, Answer(net, flow, route)) && Inv(Answer(net, flow, route))
  {
    AnswerImproves(net, flow, route);
    hide Improves, IssuedInPast, NoneOld;
    var net' := Answer(net, flow, route);
    AheadKept(net, net', route.nextHop, Reverse(flow), route.id, route.metric);
    InvKept(net, net', 0, Key(0, 0, 0));
  }

  lemma ReplyInv(net: Net, flow: Key)
    requires Inv(net) && (flow.dst, Reverse(flow)) in net.tables
    ensures Improves(net, Reply(net, flow)) && Inv(Reply(net, flow))
  {
    assert EntryOk(net, flow.dst, Reverse(flow)) && NextOk(net, flow.dst, Reverse(flow));
    hide Inv, Improves;
    AnswerInv(net, flow, net.tables[(flow.dst, Reverse(flow))]);
  }

  /** So does a reply that is made on a route to a neighbour, with what was learned there. */
  lemma OwnReplyInv(net: Net, flow: Key, route: Entry)
    requires Inv(net) && Own(flow.dst, Reverse(flow), route) in net.own
    ensures Inv(Answer(net, flow, route))
  {
    assert OwnOk(net, Own(flow.dst, Reverse(flow), route));
    hide Inv, Improves;
    AnswerInv(net, flow, route);
  }

  lemma SkipInv(net: Net, n: Ip)
    requires Inv(net)
    ensures Inv(Skip(net, n))
  {
    forall m | m in net.flight
      ensures Carried(net, RouteKey(m), m.id)
    {
    }
    InvKept(net, Skip(net, n), 0, Key(0, 0, 0));
  }

  // ---- Requests ----

  /** Every hop that takes a request up lengthens the path, under all three metrics, and ten hops do not overflow
      32 bits. */
  lemma {:induction false} PathGrows(routing: Routing, radio: Radio, tos: Tos, hops: nat, metric: nat)
    requires radio.link.Valid()
    requires 1 <= hops <= NET_DIAMETER && metric <= (hops - 1) * MAX_INCREMENT
    requires routing == Hops ==> metric == hops - 1
    requires PathMetric(routing, radio, tos, hops, metric).Total?
    ensures metric < PathMetric(routing, radio, tos, hops, metric).path <= metric + MAX_INCREMENT
    ensures routing == Hops ==> PathMetric(routing, radio, tos, hops, metric).path == hops
  {
    match routing
    case Hops =>
    case Ett => EttGrows(radio.link, metric);
    case Wcim => WcimGrows(radio.own, radio.link, radio.near, radio.far, tos, metric);
  }

  /** What a received message leaves behind: the route, if it is accepted, and the messages sent on. */
  function Taken(net: Net, i: nat, metric: nat, copies: seq<Msg>): Net
    requires i < |net.flight|
  {
    var m := net.flight[i];
    var installed := Install(Drop(net, i), m.to, RouteKey(m), Entry(m.id, metric, (m.hops + 1) % U8, m.from));
    installed.(flight := installed.flight + copies)
  }

  lemma TakenImproves(net: Net, i: nat, metric: nat, copies: seq<Msg>)
    requires i < |net.flight|
    requires forall c :: c in copies ==> RouteKey(c) == RouteKey(net.flight[i]) && c.id == net.flight[i].id
    ensures Improves(net, Taken(net, i, metric, copies))
  {
    var m := net.flight[i];
    assert Carried(net, RouteKey(m), m.id);
    forall m' | m' in Taken(net, i, metric, copies).flight
      ensures Carried(net, RouteKey(m'), m'.id)
    {
      assert m' in net.flight || m' in copies;
    }
  }

  /** A route longer than the one its sender advertises keeps the invariant. */
  lemma TakenInv(net: Net, i: nat, metric: nat, copies: seq<Msg>)
    requires i < |net.flight| && Inv(net)
    requires var m := net.flight[i];
      m.to != RouteKey(m).dst && 1 <= metric <= NET_DIAMETER * MAX_INCREMENT && Advertised(m) < metric
    requires forall c :: c in copies ==> RouteKey(c) == RouteKey(net.flight[i]) && c.id == net.flight[i].id
    requires var net' := Taken(net, i, metric, copies);
      forall c :: c in copies ==> MsgOk(net', c) && SenderOk(net', c) && RelayOk(net', c)
    ensures Inv(Taken(net, i, metric, copies))
  {
    var net' := Taken(net, i, metric, copies);
    var m := net.flight[i];
    var k := RouteKey(m);
    TakenImproves(net, i, metric, copies);
    forall m' | m' in net'.flight
      ensures m' in net.flight || m' in copies
    {
    }
    if (m.to, k) in net.tables && !Accepts(net, m.to, k, m.id, metric) {
      EntryKept(net, net', m.to, k);
    } else {
      TakenEntry(net, i, metric, copies);
    }
    InvKept(net, net', m.to, k);
  }

  lemma TakenEntry(net: Net, i: nat, metric: nat, copies: seq<Msg>)
    requires i < |net.flight| && Inv(net)
    requires var m := net.flight[i];
      && m.to != RouteKey(m).dst && 1 <= metric <= NET_DIAMETER * MAX_INCREMENT && Advertised(m) < metric
      && Accepts(net, m.to, RouteKey(m), m.id, metric)
    ensures var net' := Taken(net, i, metric, copies);
      var m := net.flight[i];
      EntryOk(net', m.to, RouteKey(m)) && NextOk(net', m.to, RouteKey(m))
  {
    var m := net.flight[i];
    assert MsgOk(net, m) && SenderOk(net, m);
  }

  lemma InvMsg(net: Net, i: nat)
    requires Inv(net) && i < |net.flight|
    ensures MsgOk(net, net.flight[i])
  {
    assert net.flight[i] in net.flight;
  }

  lemma RecvRreqInv(net: Net, i: nat, radio: Radio, audience: seq<Ip>)
    requires i < |net.flight| && net.flight[i].Rreq? && radio.link.Valid() && Inv(net)
    requires net.flight[i].to !in audience
    ensures Inv(RecvRreq(net, i, radio, audience))
  {
    hide Inv, PathMetric;
    var m := net.flight[i];
    InvMsg(net, i);
    var hops := (m.hops + 1) % U8;
    DropInv(net, i);
    var metric := PathMetric(net.routing, radio, m.flow.tos, hops, m.metric);
    if RecvRreq(net, i, radio, audience) != Drop(net, i) {
      PathGrows(net.routing, radio, m.flow.tos, hops, m.metric);
      var copies := if m.flow.dst == m.to then []
                    else Broadcast(m.to, audience, m.ttl - 1, m.flow, m.id, hops, metric.path);
      assert RecvRreq(net, i, radio, audience) == Taken(net, i, metric.path, copies);
      TakenInv(net, i, metric.path, copies);
    }
  }

  /** What is learned on a route of the node's own making is as sensible as a route of the table, and its next hop is
      as far ahead. */
  lemma OwnedInv(net: Net, i: nat, radio: Radio)
    requires Inv(net) && i < |net.flight| && radio.link.Valid() && RouteKey(net.flight[i]).src == net.flight[i].to
    requires MetricOf(net, net.flight[i], radio).Total?
    ensures Inv(Owned(net, i, MetricOf(net, net.flight[i], radio).path))
  {
    var m := net.flight[i];
    var metric := MetricOf(net, m, radio).path;
    InvMsg(net, i);
    assert SenderOk(net, m);
    hide PathMetric;
    if m.Rreq? {
      PathGrows(net.routing, radio, m.flow.tos, (m.hops + 1) % U8, m.metric);
    }
    DropInv(net, i);
    hide Improves, NoneOld, IssuedInPast;
    var net' := Owned(net, i, metric);
    var o := Own(m.to, RouteKey(m), Entry(m.id, metric, (m.hops + 1) % U8, m.from));
    assert Advertised(m) < metric;
    assert OwnOk(net', o);
    SameButOwn(Drop(net, i), net', o);
  }

  lemma SameButOwn(net: Net, net': Net, o: Own)
    requires Inv(net) && net' == net.(own := net.own + {o}) && OwnOk(net', o)
    ensures Inv(net')
  {
    forall n: Ip, k: Key | (n, k) in net'.tables
      ensures EntryOk(net', n, k) && NextOk(net', n, k)
    {
      assert EntryOk(net, n, k) && NextOk(net, n, k);
    }
    forall o' | o' in net.own
      ensures OwnOk(net', o')
    {
      assert OwnOk(net, o');
    }
  }

  // ---- Replies ----

  /** The route a node finds by the id of the request is the reverse route of the flow. */
  lemma FoundIsReverse(net: Net, i: nat, n: Ip, k: Key)
    requires Inv(net) && i < |net.flight| && net.flight[i].Rrep?
    requires FoundById(Drop(net, i), n, net.flight[i].flow.src, net.flight[i].srcId, Some(k))
    ensures k == Reverse(net.flight[i].flow) && (n, k) in net.tables && net.tables[(n, k)].id == net.flight[i].srcId
  {
    var m := net.flight[i];
    assert EntryOk(net, n, k) && MsgOk(net, m);
  }

  /** The reply that a relay sends on, over the reverse route. */
  function Relayed(m: Msg, recv: Entry): Msg
    requires m.Rrep?
  {
    Rrep(recv.nextHop, m.to, m.flow, m.id, m.srcId, (m.hops + 1) % U8, m.path, recv.metric)
  }

  /** At a relay the metric left to the source shrinks, so the metric to the destination grows. */
  lemma RelayGrows(net: Net, i: nat)
    requires Inv(net) && i < |net.flight| && net.flight[i].Rrep?
    requires var m := net.flight[i];
      && m.to != m.flow.src && (m.to, Reverse(m.flow)) in net.tables
      && net.tables[(m.to, Reverse(m.flow))].id == m.srcId
    ensures var m := net.flight[i];
      var recv := net.tables[(m.to, Reverse(m.flow))];
      && m.to != m.flow.dst && 1 <= recv.metric < m.left
      && Sub32(m.path, recv.metric) == m.path - recv.metric
      && 0 <= m.path - m.left < m.path - recv.metric <= NET_DIAMETER * MAX_INCREMENT
  {
    var m := net.flight[i];
    assert MsgOk(net, m) && RelayOk(net, m) && EntryOk(net, m.to, Reverse(m.flow));
    Sub32Exact(m.path, net.tables[(m.to, Reverse(m.flow))].metric);
  }

  lemma RelayedOk(net: Net, i: nat)
    requires Inv(net) && i < |net.flight| && net.flight[i].Rrep?
    requires var m := net.flight[i];
      && m.to != m.flow.src && (m.to, Reverse(m.flow)) in net.tables
      && net.tables[(m.to, Reverse(m.flow))].id == m.srcId
    ensures var m := net.flight[i];
      var recv := net.tables[(m.to, Reverse(m.flow))];
      var sent := Relayed(m, recv);
      m.path >= recv.metric && var net' := Taken(net, i, m.path - recv.metric, [sent]);
      MsgOk(net', sent) && SenderOk(net', sent) && RelayOk(net', sent)
  {
    hide Improves, NoneOld, IssuedInPast;
    var m := net.flight[i];
    var recv := net.tables[(m.to, Reverse(m.flow))];
    var sent := Relayed(m, recv);
    RelayGrows(net, i);
    var net' := Taken(net, i, m.path - recv.metric, [sent]);
    assert EntryOk(net, m.to, Reverse(m.flow)) && NextOk(net, m.to, Reverse(m.flow)) && MsgOk(net, m);
    TakenImproves(net, i, m.path - recv.metric, [sent]);
    AheadKept(net, net', recv.nextHop, Reverse(m.flow), recv.id, recv.metric);
  }

  lemma RelayInv(net: Net, i: nat, copies: seq<Msg>)
    requires Inv(net) && i < |net.flight| && net.flight[i].Rrep?
    requires var m := net.flight[i];
      && m.to != m.flow.src && (m.to, Reverse(m.flow)) in net.tables
      && var recv := net.tables[(m.to, Reverse(m.flow))];
      && recv.id == m.srcId && (copies == [] || copies == [Relayed(m, recv)])
    ensures var m := net.flight[i];
      var recv := net.tables[(m.to, Reverse(m.flow))];
      && Sub32(m.path, recv.metric) == m.path - recv.metric
      && Inv(Taken(net, i, Sub32(m.path, recv.metric), copies))
  {
    hide Inv, Sub32, MsgOk, SenderOk, RelayOk;
    RelayGrows(net, i);
    RelayedOk(net, i);
    var m := net.flight[i];
    TakenInv(net, i, m.path - net.tables[(m.to, Reverse(m.flow))].metric, copies);
  }

  lemma RelayIsTaken(net: Net, net': Net, i: nat, rk: Hit, sk: Hit)
    requires RecvRrep(net, net', i, rk, sk) && net.flight[i].to != net.flight[i].flow.src && rk.Hit?
    requires (net.flight[i].to, rk.key) in net.tables
    ensures var m := net.flight[i];
      var recv := net.tables[(m.to, rk.key)];
      net' == Taken(net, i, Sub32(m.path, recv.metric), if sk.Miss? then [] else [Relayed(m, recv)])
  {
    hide FoundById, Accepts, Sub32;
    var m := net.flight[i];
    var recv := net.tables[(m.to, rk.key)];
    var installed := Install(Drop(net, i), m.to, m.flow,
                             Entry(m.id, Sub32(m.path, recv.metric), (m.hops + 1) % U8, m.from));
    assert installed.flight + [] == installed.flight;
  }

  /** The other outcomes: at the source of the flow, and when the search finds the route to a neighbour or nothing. */
  lemma RrepOutcome(net: Net, net': Net, i: nat, rk: Hit, sk: Hit)
    requires RecvRrep(net, net', i, rk, sk)
    ensures net.flight[i].to == net.flight[i].flow.src ==> net' == Taken(net, i, net.flight[i].path, [])
    ensures net.flight[i].to != net.flight[i].flow.src && rk.Hit? ==>
              FoundById(Drop(net, i), net.flight[i].to, net.flight[i].flow.src, net.flight[i].srcId, Some(rk.key))
    ensures net.flight[i].to != net.flight[i].flow.src && rk.Near? ==>
              net' == Taken(net, i, Sub32(net.flight[i].path, 1), [])
    ensures net.flight[i].to != net.flight[i].flow.src && rk.Miss? ==> net' == Drop(net, i)
  {
    hide FoundById, Accepts, Sub32;
    var m := net.flight[i];
    var installed := Install(Drop(net, i), m.to, m.flow, Entry(m.id, m.path, (m.hops + 1) % U8, m.from));
    assert installed.flight + [] == installed.flight;
    var near := Install(Drop(net, i), m.to, m.flow, Entry(m.id, Sub32(m.path, 1), (m.hops + 1) % U8, m.from));
    assert near.flight + [] == near.flight;
  }

  lemma SourceInv(net: Net, i: nat)
    requires Inv(net) && i < |net.flight| && net.flight[i].Rrep? && net.flight[i].to == net.flight[i].flow.src
    ensures Inv(Taken(net, i, net.flight[i].path, []))
  {
    InvMsg(net, i);
    hide Inv;
    TakenInv(net, i, net.flight[i].path, []);
  }

  /** Where the search ends on the route to a neighbour, the metric that is computed from it still exceeds the one the
      sender holds: the sender is at least two away from the source, or this node would be the source. */
  lemma NearInv(net: Net, i: nat)
    requires Inv(net) && i < |net.flight| && net.flight[i].Rrep? && net.flight[i].to != net.flight[i].flow.src
    ensures Inv(Taken(net, i, Sub32(net.flight[i].path, 1), []))
  {
    hide Inv, Sub32, MsgOk, SenderOk, RelayOk, Taken;
    NearGrows(net, i);
    TakenInv(net, i, net.flight[i].path - 1, []);
  }

  lemma NearGrows(net: Net, i: nat)
    requires Inv(net) && i < |net.flight| && net.flight[i].Rrep? && net.flight[i].to != net.flight[i].flow.src
    ensures var m := net.flight[i];
      && m.to != m.flow.dst && Sub32(m.path, 1) == m.path - 1
      && 0 <= m.path - m.left < m.path - 1 <= NET_DIAMETER * MAX_INCREMENT
  {
    InvMsg(net, i);
    hide Inv;
    Sub32Exact(net.flight[i].path, 1);
  }

  lemma RecvRrepInv(net: Net, net': Net, i: nat, rk: Hit, sk: Hit)
    requires Inv(net) && RecvRrep(net, net', i, rk, sk)
    ensures Inv(net')
  {
    hide Inv, Sub32, FoundById, Taken;
    var m := net.flight[i];
    RrepOutcome(net, net', i, rk, sk);
    if m.to == m.flow.src {
      SourceInv(net, i);
    } else {
      match rk
      case Miss => DropInv(net, i);
      case Near => NearInv(net, i);
      case Hit(k) =>
        FoundIsReverse(net, i, m.to, k);
        RelayIsTaken(net, net', i, rk, sk);
        RelayInv(net, i, if sk.Miss? then [] else [Relayed(m, net.tables[(m.to, k)])]);
    }
  }

  // ---- Removals ----

  /** Removing a route is safe when no message in flight could restore a loop through its node: its node sent none
      of the messages for the key, and nothing in flight is as old as a route or a reply that leads there. */
  ghost predicate SafeToRemove(net: Net, n: Ip, k: Key) {
    && (forall m :: m in net.flight && RouteKey(m) == k ==> m.from != n)
    && (forall x: Ip :: x != n && (x, k) in net.tables && net.tables[(x, k)].nextHop == n ==>
          NoneOld(net, k, net.tables[(x, k)].id))
    && (forall o :: o in net.own && o.key == k && o.entry.nextHop == n ==> NoneOld(net, k, o.entry.id))
    && (forall m :: m in net.flight && m.Rrep? && m.to == n && Reverse(m.flow) == k ==> NoneOld(net, k, m.srcId))
  }

  /** A removal keeps the invariant exactly when it is safe. */
  lemma RemovalExactly(net: Net, n: Ip, k: Key)
    requires Inv(net) && (n, k) in net.tables
    ensures Inv(Remove(net, n, k)) <==> SafeToRemove(net, n, k)
  {
    if SafeToRemove(net, n, k) {
      SafeRemovalInv(net, n, k);
    }
    if Inv(Remove(net, n, k)) {
      RemovalIsSafe(net, n, k);
    }
  }

  lemma SafeRemovalInv(net: Net, n: Ip, k: Key)
    requires Inv(net) && (n, k) in net.tables && SafeToRemove(net, n, k)
    ensures Inv(Remove(net, n, k))
  {
    var net' := Remove(net, n, k);
    forall x: Ip, k': Key | (x, k') in net'.tables
      ensures EntryOk(net', x, k') && NextOk(net', x, k')
    {
      assert EntryOk(net, x, k') && NextOk(net, x, k');
    }
    forall o | o in net'.own
      ensures OwnOk(net', o)
    {
      assert OwnOk(net, o);
    }
    forall m | m in net'.flight
      ensures MsgOk(net', m) && SenderOk(net', m) && RelayOk(net', m)
    {
      assert MsgOk(net, m) && SenderOk(net, m) && RelayOk(net, m);
    }
  }

  lemma RemovalIsSafe(net: Net, n: Ip, k: Key)
    requires Inv(net) && (n, k) in net.tables && Inv(Remove(net, n, k))
    ensures SafeToRemove(net, n, k)
  {
    var net' := Remove(net, n, k);
    assert EntryOk(net, n, k);
    forall x: Ip | x != n && (x, k) in net.tables && net.tables[(x, k)].nextHop == n
      ensures NoneOld(net, k, net.tables[(x, k)].id)
    {
      assert NextOk(net', x, k) && NoneOld(net', k, net'.tables[(x, k)].id);
    }
    forall o | o in net.own && o.key == k && o.entry.nextHop == n
      ensures NoneOld(net, k, o.entry.id)
    {
      assert OwnOk(net', o) && NoneOld(net', k, o.entry.id);
    }
    forall m | m in net.flight && m.Rrep? && m.to == n && Reverse(m.flow) == k
      ensures NoneOld(net, k, m.srcId)
    {
      assert RelayOk(net', m) && NoneOld(net', k, m.srcId);
    }
  }

  /** It is enough that nothing in flight for the key is as old as the route: a condition on the route alone. */
  lemma OldestIsSafe(net: Net, n: Ip, k: Key)
    requires Inv(net) && (n, k) in net.tables && NoneOld(net, k, net.tables[(n, k)].id)
    ensures SafeToRemove(net, n, k)
  {
    assert EntryOk(net, n, k);
    forall m | m in net.flight && RouteKey(m) == k
      ensures m.from != n
    {
      assert SenderOk(net, m);
    }
    forall x: Ip | x != n && (x, k) in net.tables && net.tables[(x, k)].nextHop == n
      ensures NoneOld(net, k, net.tables[(x, k)].id)
    {
      assert NextOk(net, x, k);
    }
    forall o | o in net.own && o.key == k && o.entry.nextHop == n
      ensures NoneOld(net, k, o.entry.id)
    {
      assert OwnOk(net, o);
    }
    forall m | m in net.flight && m.Rrep? && m.to == n && Reverse(m.flow) == k
      ensures NoneOld(net, k, m.srcId)
    {
      assert RelayOk(net, m);
    }
  }

  // ---- Runs ----

  /** A step of a network that removes a route only when that is safe. */
  ghost predicate GuardedStep(net: Net, net': Net, step: Step) {
    NextStep(net, net', step) && (step.StepRemove? ==> SafeToRemove(net, step.n, step.key))
  }

  ghost predicate Run(nets: seq<Net>, steps: seq<Step>) {
    && |nets| == |steps| + 1 && Init(nets[0])
    && forall i :: 0 <= i < |steps| ==> GuardedStep(nets[i], nets[i + 1], steps[i])
  }

  /** Every step keeps the invariant. */
  lemma StepInv(net: Net, net': Net, step: Step)
    requires Inv(net) && GuardedStep(net, net', step)
    ensures Inv(net')
  {
    hide Inv, SafeToRemove, RecvRrep;
    match step
    case StepOriginate(flow, audience) => OriginateInv(net, flow, audience);
    case StepRecvRreq(i, radio, audience) => RecvRreqInv(net, i, radio, audience);
    case StepReply(flow) => ReplyInv(net, flow);
    case StepRecvRrep(i, rk, sk) => RecvRrepInv(net, net', i, rk, sk);
    case StepLose(i) => DropInv(net, i);
    case StepRemove(n, key) => RemovalExactly(net, n, key);
    case StepOwn(i, radio) => OwnedInv(net, i, radio);
    case StepOwnReply(flow, route) => OwnReplyInv(net, flow, route);
    case StepSkip(n) => SkipInv(net, n);
  }

  lemma {:induction false} RunInv(nets: seq<Net>, steps: seq<Step>, i: nat)
    requires Run(nets, steps) && i < |nets|
    ensures Inv(nets[i])
  {
    hide GuardedStep;
    if i > 0 {
      hide Inv;
      RunInv(nets, steps, i - 1);
      StepInv(nets[i - 1], nets[i], steps[i - 1]);
    }
  }

  /** The path that a packet takes: every node but the last has a route for the key, and passes to its next hop. */
  ghost predicate Path(net: Net, k: Key, p: seq<Ip>) {
    forall i :: 0 <= i < |p| - 1 ==> (p[i], k) in net.tables && net.tables[(p[i], k)].nextHop == p[i + 1]
  }

  /** Along a path the routes get strictly better. */
  lemma {:induction false} PathImproves(net: Net, k: Key, p: seq<Ip>, i: nat, j: nat)
    requires Inv(net) && Path(net, k, p) && i < j < |p|
    ensures (p[i], k) in net.tables
    ensures (p[j], k) in net.tables ==>
      Beats(net.tables[(p[j], k)].id, net.tables[(p[j], k)].metric,
            net.tables[(p[i], k)].id, net.tables[(p[i], k)].metric)
  {
    if j > i + 1 {
      PathImproves(net, k, p, i, j - 1);
    }
    assert (p[j - 1], k) in net.tables && net.tables[(p[j - 1], k)].nextHop == p[j];
    assert NextOk(net, p[j - 1], k);
    if (p[j], k) in net.tables {
      assert EntryOk(net, p[j], k);
    }
  }

  /** In every state that the protocol reaches, no path visits a node twice. */
  lemma NoLoops(nets: seq<Net>, steps: seq<Step>, i: nat, k: Key, p: seq<Ip>)
    requires Run(nets, steps) && i < |nets| && Path(nets[i], k, p)
    ensures Distinct(p)
  {
    hide Inv;
    RunInv(nets, steps, i);
    forall a, b | 0 <= a < b < |p|
      ensures p[a] != p[b]
    {
      PathImproves(nets[i], k, p, a, b);
    }
  }

  /** The next hop of a route is its destination, or has a strictly better route, or has none and will not take up
      one as old. */
  lemma NextHopIsAhead(nets: seq<Net>, steps: seq<Step>, i: nat, n: Ip, k: Key)
    requires Run(nets, steps) && i < |nets| && (n, k) in nets[i].tables
    ensures var e := nets[i].tables[(n, k)]; Ahead(nets[i], e.nextHop, k, e.id, e.metric)
  {
    RunInv(nets, steps, i);
    assert NextOk(nets[i], n, k);
  }

  /** In every state that the protocol reaches, the TTL and the hop count of a request add up to the network diameter,
      and its metric, which is the hop count where hops are counted, is far from wrapping. */
  lemma RequestsBounded(nets: seq<Net>, steps: seq<Step>, i: nat, m: Msg)
    requires Run(nets, steps) && i < |nets| && m in nets[i].flight && m.Rreq?
    ensures m.ttl >= 1 && m.ttl + m.hops == NET_DIAMETER
    ensures m.metric <= m.hops * MAX_INCREMENT <= NET_DIAMETER * MAX_INCREMENT < U32
    ensures nets[i].routing == Hops ==> m.metric == m.hops
  {
    RunInv(nets, steps, i);
    assert MsgOk(nets[i], m);
  }

  // ---- What goes wrong without the guard ----

  /** One copy in flight, taken up by a node that one other node, at most, can hear. */
  lemma OneCopy(net: Net, m: Msg, radio: Radio, audience: seq<Ip>)
    requires net.routing == Hops && net.flight == [m] && radio.link.Valid() && |audience| <= 1
    requires m.Rreq? && m.ttl > 1 && m.hops < NET_DIAMETER && m.to != m.flow.dst && m.to != m.flow.src
    requires Accepts(net, m.to, RouteKey(m), m.id, m.hops + 1)
    ensures var net' := RecvRreq(net, 0, radio, audience);
      && net' == net.(tables := net.tables[(m.to, RouteKey(m)) := Entry(m.id, m.hops + 1, m.hops + 1, m.from)],
                      flight := net'.flight)
      && (audience != [] ==>
            net'.flight == [Rreq(audience[0], m.to, m.ttl - 1, m.flow, m.id, m.hops + 1, m.hops + 1)])
  {
  }

  /** Node 1 floods for node 4; 2 takes the flood up and 3 takes it up from 2. What 3 sends returns to 2. */
  lemma EarlyFlood(flow: Key, radio: Radio) returns (n0: Net, n1: Net, n2: Net, n3: Net)
    requires flow == Key(1, 4, 0) && radio.link.Valid()
    ensures Init(n0) && NextStep(n0, n1, StepOriginate(flow, [2]))
    ensures NextStep(n1, n2, StepRecvRreq(0, radio, [3])) && NextStep(n2, n3, StepRecvRreq(0, radio, [2]))
    ensures n3.routing == Hops && n3.flight == [Rreq(2, 3, 8, flow, 2, 2, 2)]
    ensures (2, Reverse(flow)) in n3.tables && (3, Reverse(flow)) in n3.tables
    ensures n3.tables[(3, Reverse(flow))].nextHop == 2
  {
    n0 := Net(Hops, map[], map[], [], map[], {});
    n1 := Originate(n0, flow, [2]);
    assert n1.flight == [Rreq(2, 1, 10, flow, 2, 0, 0)];
    hide RecvRreq;
    OneCopy(n1, n1.flight[0], radio, [3]);
    n2 := RecvRreq(n1, 0, radio, [3]);
    OneCopy(n2, n2.flight[0], radio, [2]);
    n3 := RecvRreq(n2, 0, radio, [2]);
  }

  /** Then 2 removes its route while that copy is in flight, and takes the copy up: 2 and 3 are each other's next
      hop. */
  lemma EarlyRemovalLoops() returns (nets: seq<Net>, steps: seq<Step>, k: Key)
    ensures |nets| == |steps| + 1 == 6 && Init(nets[0])
    ensures forall i :: 0 <= i < |steps| ==> NextStep(nets[i], nets[i + 1], steps[i])
    ensures Path(nets[5], k, [2, 3, 2])
  {
    hide RecvRreq, RecvRrep, Originate;
    var flow := Key(1, 4, 0);
    k := Reverse(flow);
    var radio := Radio(0, Link(0, 0, 0, 0, 0, []), [], []);
    var n0, n1, n2, n3 := EarlyFlood(flow, radio);
    var n4 := Remove(n3, 2, k);
    OneCopy(n4, n4.flight[0], radio, []);
    var n5 := RecvRreq(n4, 0, radio, []);
    assert NextStep(n3, n4, StepRemove(2, k)) && NextStep(n4, n5, StepRecvRreq(0, radio, []));
    hide NextStep, Init;
    nets := [n0, n1, n2, n3, n4, n5];
    steps := [StepOriginate(flow, [2]), StepRecvRreq(0, radio, [3]), StepRecvRreq(0, radio, [2]),
              StepRemove(2, k), StepRecvRreq(0, radio, [])];
  }

  // ---- When a removal makes a loop ----

  ghost predicate Looping(net: Net, k: Key) {
    exists p: seq<Ip> :: Path(net, k, p) && !Distinct(p)
  }

  /** A path leads from one node to the other. */
  ghost predicate Leads(net: Net, k: Key, a: Ip, b: Ip) {
    exists q: seq<Ip> :: q != [] && Path(net, k, q) && q[0] == a && q[|q| - 1] == b
  }

  /** A path to `n` can stop where it gets there first. */
  lemma {:induction false} FirstVisit(net: Net, k: Key, q: seq<Ip>, n: Ip) returns (r: seq<Ip>)
    requires q != [] && Path(net, k, q) && q[|q| - 1] == n
    ensures r != [] && Path(net, k, r) && r[0] == q[0] && r[|r| - 1] == n
    ensures forall i :: 0 <= i < |r| - 1 ==> r[i] != n
  {
    if i :| 0 <= i < |q| - 1 && q[i] == n {
      r := FirstVisit(net, k, q[..i + 1], n);
    } else {
      r := q;
    }
  }

  /** Where a cycle goes through position `i`, a path leads from there all around and back. */
  lemma Around(net: Net, k: Key, p: seq<Ip>, a: nat, b: nat, i: nat) returns (r: seq<Ip>)
    requires Path(net, k, p) && a <= i < b < |p| && p[a] == p[b]
    ensures r != [] && Path(net, k, r) && r[0] == p[i + 1] && r[|r| - 1] == p[i]
  {
    var first, second := p[i + 1..b + 1], p[a + 1..i + 1];
    r := first + second;
    forall j | 0 <= j < |r| - 1
      ensures (r[j], k) in net.tables && net.tables[(r[j], k)].nextHop == r[j + 1]
    {
      var at := if j < |first| - 1 then i + 1 + j else if j == |first| - 1 then a else a + 1 + j - |first|;
      assert r[j] == p[at] && r[j + 1] == p[at + 1];
    }
  }

  lemma PathElsewhere(net: Net, net': Net, k: Key, p: seq<Ip>, n: Ip)
    requires Path(net, k, p) && forall i :: 0 <= i < |p| - 1 ==> p[i] != n
    requires forall x: Ip :: x != n ==> ((x, k) in net.tables <==> (x, k) in net'.tables)
    requires forall x: Ip :: x != n && (x, k) in net.tables ==> net'.tables[(x, k)] == net.tables[(x, k)]
    ensures Path(net', k, p)
  {
  }

  /** Whatever route a node is given, it makes a loop exactly if a path led from its next hop to the node. */
  lemma InstallLoopsExactly(net: Net, n: Ip, k: Key, e: Entry)
    requires Inv(net)
    ensures Looping(net.(tables := net.tables[(n, k) := e]), k) <==> Leads(net, k, e.nextHop, n)
  {
    hide Inv, Path, Distinct;
    if Leads(net, k, e.nextHop, n) {
      ClosesLoop(net, n, k, e);
    }
    if Looping(net.(tables := net.tables[(n, k) := e]), k) {
      var p: seq<Ip> :| Path(net.(tables := net.tables[(n, k) := e]), k, p) && !Distinct(p);
      LoopGoesThrough(net, n, k, e, p);
    }
  }

  lemma ClosesLoop(net: Net, n: Ip, k: Key, e: Entry)
    requires Leads(net, k, e.nextHop, n)
    ensures Looping(net.(tables := net.tables[(n, k) := e]), k)
  {
    var net' := net.(tables := net.tables[(n, k) := e]);
    var q: seq<Ip> :| q != [] && Path(net, k, q) && q[0] == e.nextHop && q[|q| - 1] == n;
    var r := FirstVisit(net, k, q, n);
    var p := [n] + r;
    PathElsewhere(net, net', k, r, n);
    assert Path(net', k, p);
    assert p[0] == p[|r|];
  }

  lemma LoopGoesThrough(net: Net, n: Ip, k: Key, e: Entry, p: seq<Ip>)
    requires Inv(net) && Path(net.(tables := net.tables[(n, k) := e]), k, p) && !Distinct(p)
    ensures Leads(net, k, e.nextHop, n)
  {
    hide Inv;
    var net' := net.(tables := net.tables[(n, k) := e]);
    var a, b :| 0 <= a < b < |p| && p[a] == p[b];
    if i :| a <= i < b && p[i] == n {
      var q := Around(net', k, p, a, b, i);
      var r := FirstVisit(net', k, q, n);
      PathElsewhere(net', net, k, r, n);
      assert (p[i], k) in net'.tables;
      assert r[0] == e.nextHop;
    } else {
      var c := p[a..b + 1];
      PathElsewhere(net', net, k, c, n);
      assert c[0] == c[|c| - 1];
      PathImproves(net, k, c, 0, |c| - 1);
    }
  }

  /** When a route has been removed and a request that was in flight is taken up in its place, that makes a loop
      exactly if a path leads from the sender of the request to the node. */
  lemma RemovalLoopsExactly(net: Net, n: Ip, k: Key, i: nat, radio: Radio, audience: seq<Ip>)
    requires Inv(net) && (n, k) in net.tables && radio.link.Valid()
    requires i < |net.flight| && net.flight[i].Rreq? && net.flight[i].to == n && RouteKey(net.flight[i]) == k
    requires (n, k) in RecvRreq(Remove(net, n, k), i, radio, audience).tables
    ensures Looping(RecvRreq(Remove(net, n, k), i, radio, audience), k) <==> Leads(net, k, net.flight[i].from, n)
  {
    var net' := RecvRreq(Remove(net, n, k), i, radio, audience);
    var e := net'.tables[(n, k)];
    TakenUp(net, n, k, i, radio, audience);
    InstallLoopsExactly(net, n, k, e);
    hide Inv, RecvRreq;
    SameLoops(net', net.(tables := net.tables[(n, k) := e]), k);
  }

  lemma TakenUp(net: Net, n: Ip, k: Key, i: nat, radio: Radio, audience: seq<Ip>)
    requires (n, k) in net.tables && radio.link.Valid()
    requires i < |net.flight| && net.flight[i].Rreq? && net.flight[i].to == n && RouteKey(net.flight[i]) == k
    requires (n, k) in RecvRreq(Remove(net, n, k), i, radio, audience).tables
    ensures var net' := RecvRreq(Remove(net, n, k), i, radio, audience);
      && net'.tables[(n, k)].nextHop == net.flight[i].from
      && net'.tables == net.tables[(n, k) := net'.tables[(n, k)]]
  {
    hide PathMetric, Broadcast;
  }

  lemma SameLoops(net: Net, net': Net, k: Key)
    requires net.tables == net'.tables
    ensures Looping(net, k) <==> Looping(net', k)
  {
    assert forall p: seq<Ip> :: Path(net, k, p) <==> Path(net', k, p);
  }
}
