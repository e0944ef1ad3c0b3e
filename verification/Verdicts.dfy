/** What becomes of packets: what `output_handler` decides about them, by the routes of the table alone, and with which
    verdict those that were held leave. */
module Verdicts {
  import opened Types
  import opened TaskQueues
  import opened TimerQueues
  import opened PacketQueues
  import opened Discovery
  import R = Routing
  import T = RouteTables
  import S = SourceLists

  // ---- Decisions ----

  /** The table has a valid route with the key. */
  ghost predicate HasRoute(n: Node, key: Key) {
    exists r :: r in n.tables.routes && r.key == key && r.state != T.Invalid
  }

  /** The flow of a packet as routes name it: addresses outside the mesh are the null address. */
  ghost predicate Names(n: Node, key: Key, p: Packet) {
    && key.tos == p.flow.tos
    && key.src == (if p.flow.src in n.internal then p.flow.src else S.NULL_IP)
    && key.dst == (if p.flow.dst in n.internal then p.flow.dst else S.NULL_IP)
  }

  /** The node speaks for the source of the flow: it is the source, or the gateway of what comes from outside. */
  ghost predicate Speaks(n: Node, key: Key) {
    key.src == n.me || (key.src == S.NULL_IP && n.gateway)
  }

  /** A packet passes exactly if there is a valid route for it, or a gateway lets it out; it is held exactly if there is
      none and the node speaks for its source; otherwise it is discarded. */
  lemma DecidesExactly(n: Node, p: Packet, key: Key)
    requires T.UniqueKeys(n.tables.routes) && Names(n, key, p) && key.src != key.dst
    ensures Decide(n, p, false) == Pass <==>
      HasRoute(n, key) || (n.gateway && !Speaks(n, key) && key.dst == S.NULL_IP)
    ensures Decide(n, p, false) == Hold <==> !HasRoute(n, key) && Speaks(n, key)
  {
    hide T.Find;
    assert FlowOf(n, p) == key;
    var rs := n.tables.routes;
    var k := T.Find(rs, key);
    if HasRoute(n, key) {
      var r :| r in rs && r.key == key && r.state != T.Invalid;
      var i :| 0 <= i < |rs| && rs[i] == r;
      assert k == i;
    }
  }

  /** Signalling passes without a trace, and so does what does not cross the mesh. */
  lemma OthersPass(n: Node, p: Packet, key: Key, signalling: bool, now: nat)
    requires Names(n, key, p) && (signalling || key.src == key.dst)
    ensures Decide(n, p, signalling) == Pass && Output(n, p, signalling, now) == n
  {
  }

  /** Traffic of others never passes an inside node without a valid route, nor is it held there. */
  lemma RelaysNeedRoutes(n: Node, p: Packet, key: Key)
    requires Names(n, key, p) && key.src != key.dst && !n.gateway && key.src != n.me && !HasRoute(n, key)
    ensures Decide(n, p, false) == Discard
  {
    hide T.Find;
    assert FlowOf(n, p) == key;
  }

  /** As soon as a neighbour is discovered packets to it pass. */
  lemma NeighboursPass(n: Node, p: Packet, ip: Ip, id: nat, junk: nat, now: nat)
    requires Names(n, Key(n.me, ip, 0), p)
    ensures Decide(After(n, StepTables(R.EventNeighbour(ip, id, junk)), now), p, false) == Pass
  {
    hide T.Find, T.PlaceFor;
    var rs := n.tables.routes;
    var n' := After(n, StepTables(R.EventNeighbour(ip, id, junk)), now);
    var k := T.PlaceFor(rs, ip);
    assert FlowOf(n', p) == Key(n.me, ip, 0);
    assert n'.tables.routes[k] == R.NeighbourRoute(n.me, ip, id, junk);
    assert forall i :: 0 <= i < k ==> n'.tables.routes[i].key.dst < ip;
    assert T.Find(n'.tables.routes, Key(n.me, ip, 0)) == k;
  }

  /** A packet that is to be held is the newest one in the queue, if there is room, and the next thing the daemon does
      is to ask for its route. */
  lemma HeldIsAskedFor(n: Node, p: Packet, key: Key, now: nat, later: nat)
    requires Names(n, key, p) && Decide(n, p, false) == Hold
    ensures var n1 := Output(n, p, false, now);
      var n2 := Serve(n1, later);
      && n1.tables == n.tables && n1.log == n.log
      && n1.held == (if |n.held| < n.room then n.held + [p] else n.held)
      && n1.tasks != [] && n1.tasks[0].time == now
      && n2.tasks == n.tasks && n2.held == n1.held
      && n2.floods == n.floods + [Request(key, n.seqNo + 1)]
  {
    hide T.Find, InsertTimer, DirectionalTimer;
    var n1 := Output(n, p, false, now);
    assert FlowOf(n, p) == key;
    assert n1.tasks[0] == GenTask(key, now);
    assert Served(n1.tasks) == 0;
    assert RemoveAt(n1.tasks, 0) == n.tasks;
  }

  /** A packet that passes or is discarded leaves no trace but the use of its route. */
  lemma OthersLeaveNoTrace(n: Node, p: Packet, signalling: bool, now: nat)
    requires Decide(n, p, signalling) != Hold
    ensures var n' := Output(n, p, signalling, now); n' == n.(tables := n'.tables)
    ensures Decide(n, p, signalling) == Discard ==> Output(n, p, signalling, now) == n
  {
    hide T.Find, R.Used;
  }

  /** A packet that passes renews the valid route of its flow, if there is one, and touches nothing else. */
  lemma PassRenews(n: Node, p: Packet, key: Key, now: nat)
    requires T.UniqueKeys(n.tables.routes) && Names(n, key, p) && key.src != key.dst && Decide(n, p, false) == Pass
    ensures var n' := Output(n, p, false, now);
      var rs, rs' := n.tables.routes, n'.tables.routes;
      && n' == n.(tables := n.tables.(routes := rs')) && |rs'| == |rs|
      && forall i :: 0 <= i < |rs| ==>
           rs'[i] == if rs[i].key == key && rs[i].state != T.Invalid
                     then rs[i].(state := T.Active, lifetime := now + ACTIVE_ROUTE_TIMEOUT) else rs[i]
  {
    hide T.Find;
    assert FlowOf(n, p) == key;
  }

  // ---- Verdicts ----

  /** The table has a route with the key that was confirmed at that time. */
  ghost predicate Confirmed(n: Node, key: Key, now: nat) {
    exists r :: r in n.tables.routes && r.key == key && r.state == T.Replied && r.lifetime == now + DELETE_PERIOD
  }

  /** The step serves a retry of the flow that has none left. */
  predicate GivesUp(n: Node, s: Step, key: Key) {
    && s.StepServe? && n.tasks != []
    && var x := n.tasks[Served(n.tasks)];
       x.kind == TASK_RESEND_RREQ && x.FlowKey() == key && x.retries == 0
  }

  /** Why a packet may leave with a verdict at a step. */
  ghost predicate Justified(n: Node, s: Step, now: nat, p: Packet, v: Verdict) {
    match v
    case Accept => (s.StepRrep? || s.StepAnswer? || s.StepConfirm?) && Confirmed(After(n, s, now), p.flow, now)
    case Drop => GivesUp(n, s, p.flow) || (s.StepDevice? && ByDevice(s.ifindex).Hits(p))
  }

  /** Every entry of the log from position `from` on is justified. */
  ghost predicate AllJustified(n: Node, s: Step, now: nat, n': Node) {
    && |n'.log| >= |n.log| && n'.log[..|n.log|] == n.log
    && forall i :: |n.log| <= i < |n'.log| ==> Justified(n, s, now, n'.log[i].0, n'.log[i].1)
  }

  /** The log is as it was, or has what was held for the route at position `k`, which was just confirmed. */
  ghost predicate ByRoute(n: Node, n': Node, k: nat, now: nat) {
    || n'.log == n.log
    || (k < |n'.tables.routes| && n'.tables.routes[k].state == T.Replied
        && n'.tables.routes[k].lifetime == now + DELETE_PERIOD
        && n'.log == n.log + Judged(Picked(n.held, ByFlow(n'.tables.routes[k].key), true), Accept))
  }

  lemma ConfirmReleases(n: Node, k: nat, now: nat)
    ensures ByRoute(n, Confirm(n, k, now), k, now)
  {
    hide S.Find, Picked;
  }

  lemma SettledReleases(n: Node, k: nat, hop: Ip, now: nat)
    ensures ByRoute(n, Settled(n, k, hop, now), k, now)
  {
    hide Confirm, Picked;
    ConfirmReleases(n, k, now);
  }

  lemma RouteJustifies(n: Node, s: Step, now: nat, k: nat)
    requires s.StepRrep? || s.StepAnswer? || s.StepConfirm?
    requires ByRoute(n, After(n, s, now), k, now)
    ensures AllJustified(n, s, now, After(n, s, now))
  {
    hide After, Picked;
    var n' := After(n, s, now);
    if n'.log != n.log {
      var key := n'.tables.routes[k].key;
      var left := Picked(n.held, ByFlow(key), true);
      PickedSplits(n.held, ByFlow(key));
      assert Confirmed(n', key, now);
      forall i | 0 <= i < |left|
        ensures left[i].flow == key
      {
        assert left[i] in left;
      }
    }
  }

  /** A held packet leaves accepted only when a route with its flow as key has just been confirmed, and dropped only
      when its discovery gives up or one of its devices goes. */
  lemma StepJustifies(n: Node, s: Step, now: nat)
    ensures AllJustified(n, s, now, After(n, s, now))
  {
    hide Confirm, Settled, R.Learn, T.FindById, R.Confirm, Picked, InsertTimer, WithoutTimer, R.After, R.Used, T.Find;
    hide Served, AllJustified, Decide;
    match s
    case StepServe => ServeJustifies(n, now);
    case StepRrep(news, junk) =>
      var learned := n.(tables := R.Learn(n.tables, n.me, news, now, junk).0,
                        timers := WithoutTimer(n.timers, news.key, TASK_RESEND_RREQ));
      SettledReleases(learned, RouteAfter(n, news, now, junk), n.me, now);
      RouteJustifies(n, s, now, RouteAfter(n, news, now, junk));
    case StepAnswer(news, junk) =>
      var learned := n.(tables := R.Learn(n.tables, n.me, news, now, junk).0);
      ConfirmReleases(learned, RouteAfter(n, news, now, junk), now);
      RouteJustifies(n, s, now, RouteAfter(n, news, now, junk));
    case StepConfirm(k) =>
      ConfirmReleases(n, k, now);
      RouteJustifies(n, s, now, k);
    case StepDevice(ifindex) => DeviceJustifies(n, ifindex, now);
    case StepOutput(p, signalling) => SameLog(n, s, now);
    case _ => SameLog(n, s, now);
  }

  lemma SameLog(n: Node, s: Step, now: nat)
    requires After(n, s, now).log == n.log
    ensures AllJustified(n, s, now, After(n, s, now))
  {
    hide After;
  }

  lemma DeviceJustifies(n: Node, ifindex: int, now: nat)
    ensures AllJustified(n, StepDevice(ifindex), now, After(n, StepDevice(ifindex), now))
  {
    hide Picked;
    PickedSplits(n.held, ByDevice(ifindex));
  }

  lemma ServeJustifies(n: Node, now: nat)
    ensures AllJustified(n, StepServe, now, After(n, StepServe, now))
  {
    hide Served, Picked, InsertTimer, DirectionalTimer;
    if n.tasks != [] {
      var key := n.tasks[Served(n.tasks)].FlowKey();
      var left := Picked(n.held, ByFlow(key), true);
      PickedSplits(n.held, ByFlow(key));
      forall i | 0 <= i < |left|
        ensures left[i].flow == key
      {
        assert left[i] in left;
      }
    }
  }

  /** So over whole runs: where an entry of the log comes from. */
  lemma {:induction false} WhyLogged(ns: seq<Node>, ss: seq<Step>, clock: seq<nat>, i: nat) returns (j: nat)
    requires Run(ns, ss, clock) && |ns[0].log| <= i < |ns[|ss|].log|
    ensures j < |ss| && |ns[j].log| <= i < |ns[j + 1].log| && ns[j + 1].log[i] == ns[|ss|].log[i]
    ensures Justified(ns[j], ss[j], clock[j], ns[|ss|].log[i].0, ns[|ss|].log[i].1)
  {
    hide After, Enabled, Justified;
    var k := |ss| - 1;
    assert ss != [];
    StepJustifies(ns[k], ss[k], clock[k]);
    if i < |ns[k].log| {
      j := WhyLogged(ns[..|ss|], ss[..k], clock[..k], i);
      assert ns[|ss|].log[..|ns[k].log|][i] == ns[k].log[i];
    } else {
      j := k;
    }
  }

  /** When a device goes, exactly the packets bound to it on either side are dropped, oldest first. */
  lemma {:induction false} DevicesGo(n: Node, ifindex: int, now: nat, p: Packet)
    ensures var n' := After(n, StepDevice(ifindex), now);
      && (p in n'.held <==> p in n.held && p.inDev != Some(ifindex) && p.outDev != Some(ifindex))
      && n' == n.(held := n'.held, log := n'.log)
      && n'.log == n.log + Judged(Picked(n.held, ByDevice(ifindex), true), Drop)
      && (p in Picked(n.held, ByDevice(ifindex), true) <==>
            p in n.held && (p.inDev == Some(ifindex) || p.outDev == Some(ifindex)))
  {
    hide Picked, Judged;
    var q, c := n.held, ByDevice(ifindex);
    PickedSplits(q, c);
    assert p in q <==> p in multiset(q);
    assert p in Picked(q, c, true) <==> p in multiset(Picked(q, c, true));
    assert p in Picked(q, c, false) <==> p in multiset(Picked(q, c, false));
  }

  // ---- Packets of one flow ----

  /** The entries of a log that concern the flow. */
  function LogOf(log: seq<(Packet, Verdict)>, key: Key): seq<(Packet, Verdict)> {
    if log == [] then []
    else LogOf(log[..|log| - 1], key) + (if log[|log| - 1].0.flow == key then [log[|log| - 1]] else [])
  }

  /** What the log says of the flow, if all packets that are still held for it were dropped now. */
  function Account(n: Node, key: Key): seq<(Packet, Verdict)> {
    LogOf(n.log, key) + Judged(Picked(n.held, ByFlow(key), true), Drop)
  }

  /** The step confirms no route of the flow. */
  predicate Unanswered(n: Node, s: Step, key: Key) {
    match s
    case StepRrep(news, _) => Freed(n, news) != Some(key)
    case StepAnswer(news, _) => Freed(n, news) != Some(key)
    case StepConfirm(k) => k < |n.tables.routes| ==> n.tables.routes[k].key != key
    case _ => true
  }

  lemma {:induction false} LogOfSum(a: seq<(Packet, Verdict)>, b: seq<(Packet, Verdict)>, key: Key)
    ensures LogOf(a + b, key) == LogOf(a, key) + LogOf(b, key)
  {
    if b == [] {
      assert a + b == a;
    } else {
      assert (a + b)[..|a + b| - 1] == a + b[..|b| - 1];
      LogOfSum(a, b[..|b| - 1], key);
    }
  }

  lemma {:induction false} LogOfJudged(q: seq<Packet>, v: Verdict, key: Key)
    ensures LogOf(Judged(q, v), key) == Judged(Picked(q, ByFlow(key), true), v)
  {
    hide LogOf, Picked, Judged;
    JudgedOne(key, v);
    if q == [] {
      PickedFirst(q, key);
    } else {
      var rest := q[1..];
      var one := if q[0].flow == key then [q[0]] else [];
      assert q == [q[0]] + rest;
      LogOfJudged(rest, v, key);
      LogOfOne(q[0], v, key);
      PickedFirst(q, key);
      JudgedSum([q[0]], rest, v);
      LogOfSum(Judged([q[0]], v), Judged(rest, v), key);
      JudgedSum(one, Picked(rest, ByFlow(key), true), v);
    }
  }

  lemma JudgedOne(key: Key, v: Verdict)
    ensures Judged([], v) == [] && LogOf([], key) == []
  {
  }

  lemma LogOfOne(p: Packet, v: Verdict, key: Key)
    ensures LogOf(Judged([p], v), key) == Judged(if p.flow == key then [p] else [], v)
  {
    assert Judged([p], v)[..0] == [];
  }

  lemma PickedFirst(q: seq<Packet>, key: Key)
    ensures q == [] ==> Picked(q, ByFlow(key), true) == []
    ensures q != [] ==>
      Picked(q, ByFlow(key), true) == (if q[0].flow == key then [q[0]] else []) + Picked(q[1..], ByFlow(key), true)
  {
  }

  lemma JudgedSum(a: seq<Packet>, b: seq<Packet>, v: Verdict)
    ensures Judged(a + b, v) == Judged(a, v) + Judged(b, v)
  {
  }

  lemma PickCons(p: Packet, q: seq<Packet>, c: Compare, hit: bool)
    ensures Picked([p] + q, c, hit) == (if c.Hits(p) == hit then [p] else []) + Picked(q, c, hit)
  {
    assert ([p] + q)[1..] == q;
  }

  /** Picking those of one flow from those of another, or from the rest. */
  lemma {:induction false} PickedTwice(q: seq<Packet>, key: Key, key': Key, hit: bool)
    ensures Picked(Picked(q, ByFlow(key'), hit), ByFlow(key), true)
         == if (key == key') == hit then Picked(q, ByFlow(key), true) else []
  {
    if q != [] {
      var rest := Picked(q[1..], ByFlow(key'), hit);
      PickedTwice(q[1..], key, key', hit);
      PickCons(q[0], rest, ByFlow(key), true);
      assert [] + rest == rest;
    }
  }

  /** Dropping the packets of any flow, or sending those of another, settles part of the account and changes nothing
      of it. */
  lemma ReleaseAccount(n: Node, key': Key, v: Verdict, key: Key)
    requires v == Drop || key != key'
    ensures Account(Release(n, key', v), key) == Account(n, key)
  {
    hide Picked, LogOf;
    var out := Picked(n.held, ByFlow(key'), true);
    LogOfSum(n.log, Judged(out, v), key);
    LogOfJudged(out, v, key);
    PickedTwice(n.held, key, key', true);
    PickedTwice(n.held, key, key', false);
    assert Judged([], Drop) == [] && Judged([], v) == [];
  }

  lemma ConfirmAccount(n: Node, k: nat, now: nat, key: Key)
    requires k < |n.tables.routes| ==> n.tables.routes[k].key != key
    ensures Account(Confirm(n, k, now), key) == Account(n, key)
  {
    hide S.Find, Release, Account;
    var (tables, ok) := R.Confirm(n.tables, k, now);
    if ok {
      ReleaseAccount(n.(tables := tables), tables.routes[k].key, Accept, key);
      SameAccount(n, n.(tables := tables), key);
    }
  }

  lemma SameAccount(n: Node, n': Node, key: Key)
    requires n'.held == n.held && n'.log == n.log
    ensures Account(n', key) == Account(n, key)
  {
  }

  lemma ServeAccounts(n: Node, now: nat, key: Key)
    ensures Account(Serve(n, now), key) == Account(n, key)
  {
    hide Served, Account, Release, Flood;
    if n.tasks != [] {
      var x := n.tasks[Served(n.tasks)];
      var rest := n.(tasks := RemoveAt(n.tasks, Served(n.tasks)));
      SameAccount(n, rest, key);
      ReleaseAccount(rest, x.FlowKey(), Drop, key);
      FloodHolds(rest, x.FlowKey(), RREQ_RETRIES, now);
      SameAccount(rest, GenRreq(rest, x.FlowKey(), now), key);
      if x.retries > 0 {
        FloodHolds(rest, x.FlowKey(), x.retries - 1, now);
        SameAccount(rest, Flood(rest, x.FlowKey(), x.retries - 1, now), key);
      } else {
        SameAccount(Release(rest, x.FlowKey(), Drop), ResendRreq(rest, x.FlowKey(), 0, now), key);
      }
    }
  }

  lemma FloodHolds(n: Node, key: Key, retries: nat, now: nat)
    ensures var n' := Flood(n, key, retries, now); n'.held == n.held && n'.log == n.log
  {
  }

  /** The packets of the flow that go with a device, or that stay. */
  function OfDevice(q: seq<Packet>, ifindex: int, key: Key, gone: bool): seq<Packet> {
    Picked(Picked(q, ByDevice(ifindex), gone), ByFlow(key), true)
  }

  lemma OfDeviceCons(q: seq<Packet>, ifindex: int, key: Key, gone: bool)
    requires q != []
    ensures OfDevice(q, ifindex, key, gone)
         == (if q[0].flow == key && ByDevice(ifindex).Hits(q[0]) == gone then [q[0]] else [])
            + OfDevice(q[1..], ifindex, key, gone)
  {
    var rest := Picked(q[1..], ByDevice(ifindex), gone);
    PickCons(q[0], rest, ByFlow(key), true);
    assert [] + rest == rest;
  }

  lemma {:induction false} DeviceSplits(q: seq<Packet>, ifindex: int, key: Key)
    ensures multiset(Judged(Picked(q, ByFlow(key), true), Drop))
         == multiset(Judged(OfDevice(q, ifindex, key, true), Drop))
            + multiset(Judged(OfDevice(q, ifindex, key, false), Drop))
  {
    if q != [] {
      var rest := q[1..];
      var hit := ByDevice(ifindex).Hits(q[0]);
      var one := if q[0].flow == key then [q[0]] else [];
      DeviceSplits(rest, ifindex, key);
      OfDeviceCons(q, ifindex, key, hit);
      OfDeviceCons(q, ifindex, key, !hit);
      assert Picked(q, ByFlow(key), true) == one + Picked(rest, ByFlow(key), true);
      assert OfDevice(q, ifindex, key, hit) == one + OfDevice(rest, ifindex, key, hit);
      assert OfDevice(q, ifindex, key, !hit) == OfDevice(rest, ifindex, key, !hit);
      hide Picked, OfDevice, Judged;
      JudgedSum(one, Picked(rest, ByFlow(key), true), Drop);
      JudgedSum(one, OfDevice(rest, ifindex, key, hit), Drop);
    }
  }

  lemma DeviceAccount(n: Node, ifindex: int, now: nat, key: Key)
    ensures multiset(Account(After(n, StepDevice(ifindex), now), key)) == multiset(Account(n, key))
  {
    hide Picked, LogOf, Judged;
    var out := Picked(n.held, ByDevice(ifindex), true);
    LogOfSum(n.log, Judged(out, Drop), key);
    LogOfJudged(out, Drop, key);
    DeviceSplits(n.held, ifindex, key);
  }

  lemma OutputAccounts(n: Node, p: Packet, signalling: bool, now: nat, key: Key)
    requires Ours(n, key) && Quiet(n, StepOutput(p, signalling), key)
    ensures Account(Output(n, p, signalling, now), key) == Account(n, key)
  {
    hide LogOf, Decide, R.Used, T.Find;
    assert p.flow == key ==> FlowOf(n, p) == key;
    PickedAppend(n.held, p, key);
  }

  lemma {:induction false} PickedAppend(q: seq<Packet>, p: Packet, key: Key)
    ensures p.flow != key ==> Picked(q + [p], ByFlow(key), true) == Picked(q, ByFlow(key), true)
  {
    if q != [] {
      assert (q + [p])[1..] == q[1..] + [p];
      PickedAppend(q[1..], p, key);
    }
  }

  lemma RrepAccounts(n: Node, s: Step, now: nat, key: Key)
    requires SelfListed(n) && Enabled(n, s) && (s.StepRrep? || s.StepAnswer?) && Unanswered(n, s, key)
    ensures Account(After(n, s, now), key) == Account(n, key)
  {
    var news, junk := s.news, s.junk;
    ReplyReleases(n, news, now, junk);
    hide RecvRrep, Answer, Account, SelfListed, Freed, LogOf, Picked;
    var n' := After(n, s, now);
    match Freed(n, news)
    case None => SameAccount(n, n', key);
    case Some(key') =>
      ReleaseAccount(n, key', Accept, key);
      SameAccount(Release(n, key', Accept), n', key);
  }

  /** Without new packets of the flow and without confirmations of its routes, its account stays what it is; devices may
      only change the order. */
  lemma StepAccounts(n: Node, s: Step, now: nat, key: Key)
    requires SelfListed(n) && Ours(n, key) && Enabled(n, s) && Quiet(n, s, key) && Unanswered(n, s, key)
    ensures multiset(Account(After(n, s, now), key)) == multiset(Account(n, key))
    ensures !s.StepDevice? ==> Account(After(n, s, now), key) == Account(n, key)
  {
    hide Account, Output, Serve, Signal, Confirm, RecvRrep, Answer, R.After, InsertTimer, WithoutTimer, SelfListed;
    hide Picked, Freed;
    match s
    case StepOutput(p, signalling) => OutputAccounts(n, p, signalling, now, key);
    case StepServe => ServeAccounts(n, now, key);
    case StepSignal =>
      SignalAccount(n, now, key);
      SameAccount(n, Signal(n, now), key);
    case StepRrep(_, _) => RrepAccounts(n, s, now, key);
    case StepAnswer(_, _) => RrepAccounts(n, s, now, key);
    case StepConfirm(k) => ConfirmAccount(n, k, now, key);
    case StepDevice(ifindex) => DeviceAccount(n, ifindex, now, key);
    case _ => SameAccount(n, After(n, s, now), key);
  }

  lemma {:induction false} RunAccounts(ns: seq<Node>, ss: seq<Step>, clock: seq<nat>, key: Key)
    requires Run(ns, ss, clock) && SelfListed(ns[0]) && Ours(ns[0], key)
    requires forall i :: 0 <= i < |ss| ==> Quiet(ns[i], ss[i], key) && Unanswered(ns[i], ss[i], key)
    ensures SelfListed(ns[|ss|]) && Ours(ns[|ss|], key)
    ensures multiset(Account(ns[|ss|], key)) == multiset(Account(ns[0], key))
    ensures (forall i :: 0 <= i < |ss| ==> !ss[i].StepDevice?) ==> Account(ns[|ss|], key) == Account(ns[0], key)
  {
    hide Enabled, After, Quiet, Unanswered, SelfListed, Account;
    if ss != [] {
      var i := |ss| - 1;
      RunAccounts(ns[..|ss|], ss[..i], clock[..i], key);
      StepKeepsMe(ns[i], ss[i], clock[i]);
      StepAccounts(ns[i], ss[i], clock[i], key);
    }
  }

  /** A discovery that nothing answers: once its tasks have been served, every packet that was held for the flow has
      been dropped, and nothing else has become of any; if no device went meanwhile, in the order of arrival. */
  lemma UnansweredAreDropped(ns: seq<Node>, ss: seq<Step>, clock: seq<nat>, key: Key)
    requires Run(ns, ss, clock) && SelfListed(ns[0]) && NoneStranded(ns[0]) && Ours(ns[0], key)
    requires forall i :: 0 <= i < |ss| ==>
      Quiet(ns[i], ss[i], key) && Unanswered(ns[i], ss[i], key) && Harmless(ns[i], ss[i])
    requires Worked(ns, ss, key) >= Work(ns[0], key)
    ensures var dropped := Judged(Picked(ns[0].held, ByFlow(key), true), Drop);
      && multiset(LogOf(ns[|ss|].log, key)) == multiset(LogOf(ns[0].log, key)) + multiset(dropped)
      && ((forall i :: 0 <= i < |ss| ==> !ss[i].StepDevice?) ==>
            LogOf(ns[|ss|].log, key) == LogOf(ns[0].log, key) + dropped)
  {
    hide Enabled, After, Quiet, Unanswered, Harmless, SelfListed, NoneStranded, LogOf, Work, Worked;
    RunAccounts(ns, ss, clock, key);
    ServedFlowsAreDone(ns, ss, clock, key);
    NoneHeld(ns[|ss|].held, key);
  }

  lemma {:induction false} NoneHeld(q: seq<Packet>, key: Key)
    requires forall p :: p in q ==> p.flow != key
    ensures Judged(Picked(q, ByFlow(key), true), Drop) == []
  {
    if q != [] {
      NoneHeld(q[1..], key);
    }
  }
}
