/** The mesh as a whole: nodes with all their queues and tables, and the messages between them. Its runs are runs of
    the network model, and so the routing tables that the nodes keep make no loops. */
module Meshes {
  import opened Types
  import opened TaskQueues
  import opened TimerQueues
  import opened PacketQueues
  import opened Answers
  import C = Clock
  import D = Discovery
  import F = Refinement
  import H = Handlers
  import LF = LoopFreedom
  import M = Metrics
  import N = Network
  import Q = Requests
  import R = Routing
  import S = SourceLists
  import T = RouteTables

  datatype Mesh = Mesh(routing: M.Routing, nodes: map<Ip, D.Node>, flight: seq<N.Msg>)

  /** A message is heard, by a node that knows its sender or not; a node serves a task, or does another step on its own;
      a message is lost. The audience is whoever hears a broadcast. */
  datatype Step =
    | StepHear(i: nat, radio: Option<N.Radio>, audience: seq<Ip>, junk: nat)
    | StepServe(n: Ip, audience: seq<Ip>)
    | StepLocal(n: Ip, s: D.Step, audience: seq<Ip>)
    | StepLose(i: nat)

  function Hear(mesh: Mesh, i: nat, radio: Option<N.Radio>, audience: seq<Ip>, junk: nat, now: nat): Mesh
    requires i < |mesh.flight| && (radio.Some? ==> radio.value.link.Valid())
  {
    var m := mesh.flight[i];
    var rest := RemoveAt(mesh.flight, i);
    if m.to !in mesh.nodes then mesh.(flight := rest)
    else if m.Rreq? then
      var (n', out) := Q.RecvRreq(mesh.nodes[m.to], mesh.routing, m, S.NULL_IP, radio, now, junk);
      mesh.(nodes := mesh.nodes[m.to := n'], flight := rest + Passed(m, out, audience))
    else
      var (n', out) := Q.RecvRrep(mesh.nodes[m.to], m, S.NULL_IP, radio.Some?, now, junk);
      mesh.(nodes := mesh.nodes[m.to := n'], flight := rest + Q.Sent(out))
  }

  function Passed(m: N.Msg, out: Q.Outcome, audience: seq<Ip>): seq<N.Msg>
    requires m.Rreq?
  {
    if out.Forwarded? then N.Broadcast(m.to, audience, out.ttl, m.flow, m.id, out.hops, out.metric) else []
  }

  /** The copies of the request that a step of discovery has sent, if it has. */
  function Flooded(n: D.Node, n': D.Node, audience: seq<Ip>): seq<N.Msg> {
    if |n'.floods| > |n.floods| then
      var f := n'.floods[|n.floods|];
      N.Broadcast(n.me, audience, NET_DIAMETER, f.flow, f.id, 0, 0)
    else []
  }

  /** What is possible. Routes are learned, confirmed and learn their previous hops as messages are handled, and so do
      replies become due; they are made when their task is served. */
  predicate Enabled(mesh: Mesh, s: Step) {
    match s
    case StepHear(i, radio, audience, _) =>
      i < |mesh.flight| && mesh.flight[i].to !in audience && (radio.Some? ==> radio.value.link.Valid())
    case StepServe(n, audience) => n in mesh.nodes && n !in audience
    case StepLocal(n, local, audience) =>
      n in mesh.nodes && n !in audience && D.Enabled(mesh.nodes[n], local) && OnItsOwn(local)
    case StepLose(i) => i < |mesh.flight|
  }

  /** The step comes neither with a message nor with a task. */
  predicate OnItsOwn(s: D.Step) {
    match s
    case StepServe => false
    case StepRrep(_, _) => false
    case StepAnswer(_, _) => false
    case StepConfirm(_) => false
    case StepNumber => false
    case StepTables(e) => !e.EventLearn? && !e.EventLastHop?
    case StepQueue(x) => x.kind != TASK_SEND_RREP
    case StepTimer(x) => x.kind != TASK_SEND_RREP
    case StepDelete(_, kind) => kind != TASK_SEND_RREP
    case _ => true
  }

  function Next(mesh: Mesh, s: Step, now: nat): Mesh
    requires Enabled(mesh, s)
  {
    match s
    case StepHear(i, radio, audience, junk) => Hear(mesh, i, radio, audience, junk, now)
    case StepServe(n, audience) =>
      var (n', out) := Q.Serve(mesh.nodes[n], now);
      mesh.(nodes := mesh.nodes[n := n'],
            flight := mesh.flight + (Q.Sent(out) + Flooded(mesh.nodes[n], n', audience)))
    case StepLocal(n, local, audience) =>
      var n' := D.After(mesh.nodes[n], local, now);
      mesh.(nodes := mesh.nodes[n := n'], flight := mesh.flight + Flooded(mesh.nodes[n], n', audience))
    case StepLose(i) => mesh.(flight := RemoveAt(mesh.flight, i))
  }

  /** What the network model leaves out: sources that cannot be listed, numbers that wrap, and discoveries for flows
      that do not start at the node or do not end in the mesh. */
  predicate Ordinary(mesh: Mesh, s: Step, now: nat)
    requires Enabled(mesh, s)
  {
    match s
    case StepHear(i, radio, _, _) =>
      var m := mesh.flight[i];
      m.to in mesh.nodes ==>
        if m.Rreq? then !Q.Strands(mesh.nodes[m.to], mesh.routing, m, radio)
        else Q.ReplyListable(mesh.nodes[m.to], m)
    case StepServe(n, _) => mesh.nodes[n].seqNo + 1 < U32 && FloodsOwn(mesh.nodes[n], Q.Serve(mesh.nodes[n], now).0)
    case StepLocal(n, local, _) =>
      mesh.nodes[n].seqNo + 1 < U32 && FloodsOwn(mesh.nodes[n], D.After(mesh.nodes[n], local, now))
    case StepLose(_) => true
  }

  /** A request that has been sent is for a flow of the node's own inside the mesh. */
  predicate FloodsOwn(n: D.Node, n': D.Node) {
    |n'.floods| > |n.floods| ==>
      var flow := n'.floods[|n.floods|].flow;
      flow.src == n.me && flow.dst != n.me && flow.dst != S.NULL_IP
  }

  // ---- The network that a mesh stands for ----

  function Number(mesh: Mesh, ip: Ip): nat {
    if ip in mesh.nodes then mesh.nodes[ip].seqNo else 1
  }

  predicate Travels(m: N.Msg) {
    m.from != S.NULL_IP && m.flow.dst != S.NULL_IP
  }

  ghost predicate Stands(mesh: Mesh, net: N.Net) {
    && net.routing == mesh.routing && net.flight == mesh.flight
    && (forall m :: m in mesh.flight ==> Travels(m))
    && (forall ip: Ip :: ip in mesh.nodes ==>
          ip != S.NULL_IP && mesh.nodes[ip].me == ip && F.Represents(net, ip, mesh.nodes[ip].tables.routes))
    && (forall ip: Ip :: N.SeqNo(net, ip) == Number(mesh, ip))
    && (forall ip: Ip, key: Key :: (ip, key) in net.tables ==> ip in mesh.nodes)
  }

  /** A step at one node. */
  lemma OneNode(mesh: Mesh, net: N.Net, x: Ip, n': D.Node, net': N.Net)
    requires Stands(mesh, net) && x in mesh.nodes && F.OnlyAt(net, net', x)
    requires n'.me == x && F.Represents(net', x, n'.tables.routes) && N.SeqNo(net', x) == n'.seqNo
    requires forall m :: m in net'.flight ==> Travels(m)
    ensures Stands(mesh.(nodes := mesh.nodes[x := n'], flight := net'.flight), net')
  {
    hide F.Represents;
    var mesh' := mesh.(nodes := mesh.nodes[x := n'], flight := net'.flight);
    forall ip: Ip | ip in mesh.nodes && ip != x
      ensures F.Represents(net', ip, mesh'.nodes[ip].tables.routes)
    {
      F.Elsewhere(net, net', x, ip, mesh.nodes[ip].tables.routes);
    }
    forall ip: Ip, key: Key | (ip, key) in net'.tables
      ensures ip in mesh'.nodes
    {
      assert ip != x ==> (ip, key) in net.tables;
    }
  }

  // ---- Each step is one of the network ----

  /** The network takes the step, which is no removal, or does nothing. */
  ghost predicate Follows(net: N.Net, net': N.Net, step: Option<N.Step>) {
    match step
    case None => net' == net
    case Some(s) => !s.StepRemove? && N.NextStep(net, net', s)
  }

  lemma LoseStands(mesh: Mesh, net: N.Net, i: nat)
    requires Stands(mesh, net) && i < |mesh.flight|
    ensures Stands(mesh.(flight := RemoveAt(mesh.flight, i)), N.Drop(net, i))
  {
    hide F.Represents;
    FlightTravels(mesh, i, []);
    assert RemoveAt(mesh.flight, i) + [] == RemoveAt(mesh.flight, i);
    forall ip: Ip
      ensures N.SeqNo(N.Drop(net, i), ip) == Number(mesh, ip)
    {
      assert N.SeqNo(net, ip) == Number(mesh, ip);
    }
    forall ip: Ip | ip in mesh.nodes
      ensures F.Represents(N.Drop(net, i), ip, mesh.nodes[ip].tables.routes)
    {
      Q.FlightRepresents(net, RemoveAt(net.flight, i), ip, mesh.nodes[ip].tables.routes);
    }
  }

  lemma RreqStands(mesh: Mesh, net: N.Net, i: nat, radio: Option<N.Radio>, audience: seq<Ip>, junk: nat, now: nat)
    returns (net': N.Net, step: Option<N.Step>)
    requires Stands(mesh, net) && N.Inv(net) && Enabled(mesh, StepHear(i, radio, audience, junk))
    requires Ordinary(mesh, StepHear(i, radio, audience, junk), now)
    requires mesh.flight[i].Rreq? && mesh.flight[i].to in mesh.nodes
    ensures Stands(Hear(mesh, i, radio, audience, junk, now), net') && Follows(net, net', step)
  {
    var m := mesh.flight[i];
    var n := mesh.nodes[m.to];
    assert m in net.flight && N.MsgOk(net, m) && Travels(m);
    assert N.SeqNo(net, m.to) == Number(mesh, m.to);
    hide N.Inv, N.MsgOk, F.Represents, Q.RecvRreq, Q.Strands, N.RecvRreq, F.OnlyAt, N.Broadcast, Stands, Q.Heeded;
    hide N.NextStep, Q.Learnable, F.OnOwn;
    var s := Q.RecvRreqRefines(net, i, n, radio, audience, now, junk);
    net', step := Q.Heeded(net, i, n, radio, audience), Some(s);
    var (n', out) := Q.RecvRreq(n, mesh.routing, m, S.NULL_IP, radio, now, junk);
    FlightTravels(mesh, i, Passed(m, out, audience));
    OneNode(mesh, net, m.to, n', net');
  }

  lemma FlightTravels(mesh: Mesh, i: nat, more: seq<N.Msg>)
    requires i < |mesh.flight| && (forall m :: m in mesh.flight ==> Travels(m)) && forall m :: m in more ==> Travels(m)
    ensures forall m :: m in RemoveAt(mesh.flight, i) + more ==> Travels(m)
  {
  }

  lemma RrepStands(mesh: Mesh, net: N.Net, i: nat, radio: Option<N.Radio>, audience: seq<Ip>, junk: nat, now: nat)
    returns (net': N.Net, step: Option<N.Step>)
    requires Stands(mesh, net) && N.Inv(net) && Enabled(mesh, StepHear(i, radio, audience, junk))
    requires Ordinary(mesh, StepHear(i, radio, audience, junk), now)
    requires mesh.flight[i].Rrep? && mesh.flight[i].to in mesh.nodes
    ensures Stands(Hear(mesh, i, radio, audience, junk, now), net') && Follows(net, net', step)
  {
    var m := mesh.flight[i];
    var n := mesh.nodes[m.to];
    assert m in net.flight && N.MsgOk(net, m) && Travels(m);
    assert N.SeqNo(net, m.to) == Number(mesh, m.to);
    hide N.Inv, N.MsgOk, F.Represents, Q.RecvRrep, Q.ReplyListable, F.OnlyAt, Stands, F.OnOwn, Q.Sent, N.NextStep;
    var nstep;
    net', nstep := Q.RecvRrepRefines(net, i, n, radio.Some?, now, junk);
    step := Some(nstep);
    var (n', out) := Q.RecvRrep(n, m, S.NULL_IP, radio.Some?, now, junk);
    RrepTravels(n, m, radio.Some?, now, junk);
    FlightTravels(mesh, i, Q.Sent(out));
    OneNode(mesh, net, m.to, n', net');
  }

  lemma RrepTravels(n: D.Node, m: N.Msg, known: bool, now: nat, junk: nat)
    requires m.Rrep? && Travels(m) && n.me != S.NULL_IP
    ensures forall x :: x in Q.Sent(Q.RecvRrep(n, m, S.NULL_IP, known, now, junk).1) ==> Travels(x)
  {
    hide Q.Joined, R.Learn, T.FindById, R.Moved;
  }

  lemma ServeStands(mesh: Mesh, net: N.Net, n: Ip, audience: seq<Ip>, now: nat)
    returns (net': N.Net, step: Option<N.Step>)
    requires Stands(mesh, net) && N.Inv(net) && Enabled(mesh, StepServe(n, audience)) && DueHere(mesh.nodes[n])
    requires Ordinary(mesh, StepServe(n, audience), now)
    ensures Stands(Next(mesh, StepServe(n, audience), now), net') && Follows(net, net', step)
  {
    var node := mesh.nodes[n];
    assert N.SeqNo(net, n) == Number(mesh, n) && N.IssuedInPast(net) && node.me == n;
    Flights(mesh, net);
    hide N.Inv, F.Represents, F.OnlyAt, Stands, N.IssuedInPast, DueHere, Q.Serve, Follows, Flooded, Q.Sent, FloodsOwn;
    net', step := ServeFollows(net, node, audience, now);
    var (n', out) := Q.Serve(node, now);
    OneNode(mesh, net, n, n', net');
  }

  lemma ServeFollows(net: N.Net, n: D.Node, audience: seq<Ip>, now: nat) returns (net': N.Net, step: Option<N.Step>)
    requires F.Represents(net, n.me, n.tables.routes) && N.SeqNo(net, n.me) == n.seqNo && N.IssuedInPast(net)
    requires n.me !in audience && n.me != S.NULL_IP && DueHere(n) && n.seqNo + 1 < U32
    requires FloodsOwn(n, Q.Serve(n, now).0)
    requires forall m :: m in net.flight ==> Travels(m)
    ensures var (n', out) := Q.Serve(n, now);
      && Follows(net, net', step) && F.Represents(net', n.me, n'.tables.routes) && F.OnlyAt(net, net', n.me)
      && n'.me == n.me && N.SeqNo(net', n.me) == n'.seqNo
      && net'.flight == net.flight + (Q.Sent(out) + Flooded(n, n', audience))
      && forall m :: m in net'.flight ==> Travels(m)
  {
    hide F.Represents, F.OnlyAt, N.IssuedInPast, N.NextStep, Q.GenRrep, D.Serve, Served, Count;
    if Q.RepliesNext(n) {
      var flow := n.tasks[Served(n.tasks)].FlowKey();
      var rest := n.(tasks := RemoveAt(n.tasks, Served(n.tasks)));
      NextIsDue(n);
      net', step := Q.GenRrepRefines(net, rest, flow, now);
      ReplyTravels(rest, flow, now);
      assert Q.Sent(Q.GenRrep(rest, flow, now).1) + [] == Q.Sent(Q.GenRrep(rest, flow, now).1);
    } else {
      net', step := LocalFollows(net, n, D.StepServe, audience, now);
      FloodTravels(n, Q.Serve(n, now).0, audience);
      assert [] + Flooded(n, Q.Serve(n, now).0, audience) == Flooded(n, Q.Serve(n, now).0, audience);
    }
  }

  /** A reply that is served was due. */
  lemma NextIsDue(n: D.Node)
    requires DueHere(n) && Q.RepliesNext(n)
    ensures var flow := n.tasks[Served(n.tasks)].FlowKey(); flow.dst == n.me != flow.src
  {
    hide Served;
    CountPositive(n.tasks, n.tasks[Served(n.tasks)].FlowKey(), TASK_SEND_RREP);
  }

  lemma ReplyTravels(n: D.Node, flow: Key, now: nat)
    requires n.me != S.NULL_IP && flow.dst == n.me
    ensures forall m :: m in Q.Sent(Q.GenRrep(n, flow, now).1) ==> Travels(m)
    ensures Q.GenRrep(n, flow, now).0.floods == n.floods
  {
    hide T.Find, R.Confirm;
  }

  lemma FloodTravels(n: D.Node, n': D.Node, audience: seq<Ip>)
    requires n.me != S.NULL_IP && FloodsOwn(n, n')
    ensures forall m :: m in Flooded(n, n', audience) ==> Travels(m)
  {
  }

  /** What a node's own step does to its tables is one event, and it sends one request with a new number or none. */
  lemma LocalEvent(n: D.Node, s: D.Step, now: nat) returns (e: R.Event)
    requires D.Enabled(n, s) && (OnItsOwn(s) || s.StepServe?)
    ensures var n' := D.After(n, s, now);
      && n'.me == n.me && n'.tables == R.After(n.tables, n.me, e, now)
      && !e.EventLearn? && !e.EventLastHop? && (e.EventSweep? ==> s == D.StepTables(e))
      && if |n'.floods| > |n.floods| then
           && n'.seqNo == n.seqNo + 1 && n'.floods == n.floods + [D.Request(n'.floods[|n.floods|].flow, n'.seqNo)]
           && n'.tables == n.tables
         else n'.seqNo == n.seqNo
  {
    hide T.Find, S.Find, R.Sweep, T.FindById, InsertTimer, WithoutTimer, Picked, Judged, Served, D.Decide;
    e := R.EventUse(|n.tables.routes|);
    match s
    case StepOutput(p, signalling) =>
      var flow := D.FlowOf(n, p);
      if D.Decide(n, p, signalling).Pass? && !signalling && flow.src != flow.dst {
        e := R.EventUse(T.Find(n.tables.routes, flow));
      }
    case StepTables(x) => e := x;
    case _ =>
  }

  lemma LocalStands(mesh: Mesh, net: N.Net, n: Ip, s: D.Step, audience: seq<Ip>, now: nat)
    returns (net': N.Net, step: Option<N.Step>)
    requires Stands(mesh, net) && N.Inv(net) && Enabled(mesh, StepLocal(n, s, audience))
    requires Ordinary(mesh, StepLocal(n, s, audience), now) && s != D.StepTables(R.EventSweep)
    ensures Stands(Next(mesh, StepLocal(n, s, audience), now), net') && Follows(net, net', step)
  {
    var node := mesh.nodes[n];
    var n' := D.After(node, s, now);
    assert N.SeqNo(net, n) == Number(mesh, n) && N.IssuedInPast(net) && node.me == n;
    Flights(mesh, net);
    hide N.Inv, D.After, D.Enabled, F.Represents, F.OnlyAt, Stands, Follows, Flooded, FloodsOwn, OnItsOwn;
    net', step := LocalFollows(net, node, s, audience, now);
    FloodTravels(node, n', audience);
    OneNode(mesh, net, n, n', net');
  }

  lemma LocalFollows(net: N.Net, n: D.Node, s: D.Step, audience: seq<Ip>, now: nat)
    returns (net': N.Net, step: Option<N.Step>)
    requires D.Enabled(n, s) && (OnItsOwn(s) || s.StepServe?) && s != D.StepTables(R.EventSweep)
    requires F.Represents(net, n.me, n.tables.routes) && N.SeqNo(net, n.me) == n.seqNo && N.IssuedInPast(net)
    requires n.me !in audience && n.seqNo + 1 < U32 && FloodsOwn(n, D.After(n, s, now))
    ensures var n' := D.After(n, s, now);
      && Follows(net, net', step) && F.Represents(net', n.me, n'.tables.routes) && F.OnlyAt(net, net', n.me)
      && n'.me == n.me && N.SeqNo(net', n.me) == n'.seqNo && net'.flight == net.flight + Flooded(n, n', audience)
  {
    var n' := D.After(n, s, now);
    var e := LocalEvent(n, s, now);
    hide D.After, D.Enabled, R.After, F.Represents, F.OnlyAt, N.Originate, N.Broadcast;
    if |n'.floods| > |n.floods| {
      var flow := n'.floods[|n.floods|].flow;
      net', step := N.Originate(net, flow, audience), Some(N.StepOriginate(flow, audience));
      Q.FloodRefines(net, n, flow, 0, audience, now);
    } else {
      net', step := net, None;
      Same(net, n.me);
      F.OthersRefineNothing(net, n.me, n.tables, e, now);
      assert net.flight + [] == net.flight;
    }
  }

  lemma Flights(mesh: Mesh, net: N.Net)
    requires Stands(mesh, net)
    ensures net.flight == mesh.flight && forall m :: m in mesh.flight ==> Travels(m)
  {
  }

  lemma Same(net: N.Net, x: Ip)
    ensures F.OnlyAt(net, net, x)
  {
  }

  // ---- Sweeps are removals ----

  /** One more step of a run. */
  lemma RunOn(nets: seq<N.Net>, steps: seq<N.Step>, net': N.Net, step: Option<N.Step>)
    returns (nets': seq<N.Net>, steps': seq<N.Step>)
    requires LF.Run(nets, steps) && Follows(nets[|steps|], net', step)
    ensures LF.Run(nets', steps') && nets <= nets' && nets'[|steps'|] == net'
  {
    nets', steps' := nets, steps;
    if step.Some? {
      nets', steps' := RunOnGuarded(nets, steps, net', step.value);
    }
  }

  lemma RunOnGuarded(nets: seq<N.Net>, steps: seq<N.Step>, net': N.Net, step: N.Step)
    returns (nets': seq<N.Net>, steps': seq<N.Step>)
    requires LF.Run(nets, steps) && LF.GuardedStep(nets[|steps|], net', step)
    ensures LF.Run(nets', steps') && nets <= nets' && nets'[|steps'|] == net'
  {
    hide LF.GuardedStep, N.Init;
    nets', steps' := nets + [net'], steps + [step];
  }

  /** A set of routes of one node is removed, one after the other, while nothing as old is in flight. */
  lemma {:induction false} RemoveAll(nets: seq<N.Net>, steps: seq<N.Step>, n: Ip, keys: set<Key>)
    returns (nets': seq<N.Net>, steps': seq<N.Step>)
    requires LF.Run(nets, steps)
    requires var net := nets[|steps|];
      forall key :: key in keys ==> (n, key) in net.tables && N.NoneOld(net, key, net.tables[(n, key)].id)
    ensures LF.Run(nets', steps') && nets <= nets' && nets'[|steps'|] == F.Without(nets[|steps|], n, keys)
    decreases keys
  {
    var net := nets[|steps|];
    if keys == {} {
      nets', steps' := nets, steps;
      assert net.tables - (set key | key in keys :: (n, key)) == net.tables;
    } else {
      var key :| key in keys;
      var net1 := N.Remove(net, n, key);
      LF.RunInv(nets, steps, |steps|);
      LF.OldestIsSafe(net, n, key);
      hide N.Inv, LF.SafeToRemove;
      assert LF.GuardedStep(net, net1, N.StepRemove(n, key));
      hide LF.Run, LF.GuardedStep;
      var nets1, steps1 := RunOnGuarded(nets, steps, net1, N.StepRemove(n, key));
      nets', steps' := RemoveAll(nets1, steps1, n, keys - {key});
      WithoutOne(net, n, keys, key);
    }
  }

  lemma WithoutOne(net: N.Net, n: Ip, keys: set<Key>, key: Key)
    requires key in keys
    ensures F.Without(N.Remove(net, n, key), n, keys - {key}) == F.Without(net, n, keys)
  {
    var rest := set x | x in keys - {key} :: (n, x);
    assert (set x | x in keys :: (n, x)) == rest + {(n, key)};
    assert net.tables - {(n, key)} - rest == net.tables - (rest + {(n, key)});
  }

  /** No message in flight is as old as a route that the sweep would remove. */
  ghost predicate SafeSweep(mesh: Mesh, n: Ip, now: nat)
    requires n in mesh.nodes
  {
    forall r, m :: r in mesh.nodes[n].tables.routes && R.Dead(r, now) && m in mesh.flight && N.RouteKey(m) == r.key ==>
      m.id > r.id
  }

  lemma SweepStands(mesh: Mesh, nets: seq<N.Net>, steps: seq<N.Step>, n: Ip, audience: seq<Ip>, now: nat)
    returns (nets': seq<N.Net>, steps': seq<N.Step>)
    requires LF.Run(nets, steps) && Stands(mesh, nets[|steps|])
    requires n in mesh.nodes && SafeSweep(mesh, n, now)
    ensures LF.Run(nets', steps') && nets <= nets'
    ensures var t' := R.Sweep(mesh.nodes[n].tables, n, now);
      Stands(mesh.(nodes := mesh.nodes[n := mesh.nodes[n].(tables := t')]), nets'[|steps'|])
  {
    var net := nets[|steps|];
    var node := mesh.nodes[n];
    Flights(mesh, net);
    assert F.Represents(net, n, node.tables.routes) && node.me == n && N.SeqNo(net, n) == Number(mesh, n);
    hide LF.Run, F.Represents, Stands, R.Dead, R.Sweep;
    var keys := F.SweepRefinesRemoval(net, n, node.tables, now);
    forall key | key in keys
      ensures (n, key) in net.tables && N.NoneOld(net, key, net.tables[(n, key)].id)
    {
      var r :| r in node.tables.routes && r.key == key && R.Dead(r, now);
      DeadIsStored(net, n, node.tables.routes, r, now);
    }
    nets', steps' := RemoveAll(nets, steps, n, keys);
    RemovedAt(net, n, keys);
    OneNode(mesh, net, n, node.(tables := R.Sweep(node.tables, n, now)), F.Without(net, n, keys));
  }

  lemma RemovedAt(net: N.Net, n: Ip, keys: set<Key>)
    ensures F.OnlyAt(net, F.Without(net, n, keys), n)
  {
  }

  lemma DeadIsStored(net: N.Net, n: Ip, rs: seq<T.Route>, r: T.Route, now: nat)
    requires F.Represents(net, n, rs) && r in rs && R.Dead(r, now)
    ensures (n, r.key) in net.tables && net.tables[(n, r.key)].id == r.id
  {
    assert F.Stored(net, n, r);
  }

  // ---- Sweeps are late ----

  /** What is invalid in the new tables was so in the old ones. */
  ghost predicate Quiet(t: R.Tables, t': R.Tables) {
    forall r :: r in t'.routes && !r.self && r.state == T.Invalid ==> R.Dormant(t, r.key, r.id, r.lifetime)
  }

  /** Or it was valid then, and has its lifetime from now. */
  ghost predicate Ages(t: R.Tables, t': R.Tables, now: nat) {
    forall r :: r in t'.routes && !r.self && r.state == T.Invalid ==>
      R.Dormant(t, r.key, r.id, r.lifetime) || (r.lifetime == now + DELETE_PERIOD && R.HadValid(t, r.key, r.id))
  }

  lemma QuietTwice(t: R.Tables, t': R.Tables, t'': R.Tables)
    requires Quiet(t, t') && Quiet(t', t'')
    ensures Quiet(t, t'')
  {
  }

  lemma EventAges(t: R.Tables, me: Ip, e: R.Event, now: nat)
    requires e.EventLearn? ==> !R.Strands(t, e.news)
    ensures Ages(t, R.After(t, me, e, now), now)
    ensures !R.Invalidates(e) ==> Quiet(t, R.After(t, me, e, now))
  {
    hide R.After, R.Dormant, R.HadValid;
    forall r | r in R.After(t, me, e, now).routes && !r.self && r.state == T.Invalid
      ensures R.Dormant(t, r.key, r.id, r.lifetime)
        || (R.Invalidates(e) && r.lifetime == now + DELETE_PERIOD && R.HadValid(t, r.key, r.id))
    {
      R.InvalidRoutes(t, me, e, now, r);
    }
  }

  lemma ConfirmQuiet(n: D.Node, k: nat, now: nat)
    ensures Quiet(n.tables, D.Confirm(n, k, now).tables) && D.Confirm(n, k, now).me == n.me
  {
    hide R.Confirm, Quiet;
    QuietSame(n.tables);
    EventAges(n.tables, n.me, R.EventConfirm(k), now);
  }

  lemma SettledQuiet(n: D.Node, k: nat, hop: Ip, now: nat)
    ensures Quiet(n.tables, D.Settled(n, k, hop, now).tables) && D.Settled(n, k, hop, now).me == n.me
  {
    hide D.Confirm, R.After, Quiet;
    var n1 := D.Confirm(n, k, now);
    ConfirmQuiet(n, k, now);
    EventAges(n1.tables, n1.me, R.EventLastHop(k, hop), now);
    QuietTwice(n.tables, n1.tables, D.Settled(n, k, hop, now).tables);
  }

  lemma JoinedQuiet(n: D.Node, j: nat, k: nat, now: nat)
    requires j < |n.tables.routes| && k < |n.tables.routes|
    ensures Quiet(n.tables, Q.Joined(n, j, k, now).tables)
  {
    hide D.Confirm, R.After, Quiet;
    var n1 := D.Confirm(n, j, now);
    var n2 := D.Settled(n1, k, n.tables.routes[j].nextHop, now);
    ConfirmQuiet(n, j, now);
    SettledQuiet(n1, k, n.tables.routes[j].nextHop, now);
    EventAges(n2.tables, n2.me, R.EventLastHop(j, n.tables.routes[k].nextHop), now);
    QuietTwice(n.tables, n1.tables, n2.tables);
    QuietTwice(n.tables, n2.tables, Q.Joined(n, j, k, now).tables);
  }

  lemma LearnQuiet(t: R.Tables, me: Ip, news: R.News, now: nat, junk: nat)
    requires !R.Strands(t, news)
    ensures Quiet(t, R.Learn(t, me, news, now, junk).0)
  {
    hide R.Learn, R.Strands, Quiet;
    EventAges(t, me, R.EventLearn(news, junk), now);
  }

  lemma RreqQuiet(n: D.Node, routing: M.Routing, m: N.Msg, radio: Option<N.Radio>, now: nat, junk: nat)
    requires m.Rreq? && Travels(m) && n.me != S.NULL_IP && (radio.Some? ==> radio.value.link.Valid())
    requires !Q.Strands(n, routing, m, radio)
    ensures Quiet(n.tables, Q.RecvRreq(n, routing, m, S.NULL_IP, radio, now, junk).0.tables)
  {
    hide Q.RecvRreq, R.Learn, R.Strands, Q.Strands, R.Dormant, Q.Learnable;
    Q.RreqOutcome(n, routing, m, radio, now, junk);
    var learnable := Q.Learnable(n.me, routing, m, radio);
    if learnable.Some? {
      Q.LearnableStrands(n, routing, m, radio);
      LearnQuiet(n.tables, n.me, Q.NewsOf(m, learnable.value), now, junk);
    } else {
      QuietSame(n.tables);
    }
  }

  lemma QuietSame(t: R.Tables)
    ensures Quiet(t, t)
  {
  }

  lemma RelayQuiet(n: D.Node, m: N.Msg, now: nat, junk: nat)
    requires m.Rrep? && Q.ReplyListable(n, m)
    ensures Quiet(n.tables, Q.Relay(n, m, now, junk).0.tables)
  {
    hide R.Learn, Q.Joined, R.Moved, T.FindById, Quiet;
    QuietSame(n.tables);
    var rs := n.tables.routes;
    var j := T.FindById(rs, m.flow.src, m.srcId);
    if j < |rs| {
      var news := Q.NewsOfReply(m, N.Sub32(m.path, rs[j].metric));
      LearnQuiet(n.tables, n.me, news, now, junk);
      var learned := n.(tables := R.Learn(n.tables, n.me, news, now, junk).0);
      var k := T.FindById(learned.tables.routes, m.flow.dst, m.id);
      R.LearnMoves(n.tables, n.me, news, now, junk, j);
      if k < |learned.tables.routes| {
        JoinedQuiet(learned, R.Moved(rs, m.flow, j), k, now);
        QuietTwice(n.tables, learned.tables, Q.Relay(n, m, now, junk).0.tables);
      }
    }
  }

  lemma SourceQuiet(n: D.Node, news: R.News, now: nat, junk: nat)
    requires !R.Strands(n.tables, news)
    ensures Quiet(n.tables, D.RecvRrep(n, news, now, junk).tables)
  {
    hide R.Learn, D.Settled, T.FindById, Quiet, WithoutTimer;
    LearnQuiet(n.tables, n.me, news, now, junk);
    var learned := n.(tables := R.Learn(n.tables, n.me, news, now, junk).0,
                      timers := WithoutTimer(n.timers, news.key, TASK_RESEND_RREQ));
    var k := D.RouteAfter(n, news, now, junk);
    SettledQuiet(learned, k, n.me, now);
    QuietTwice(n.tables, learned.tables, D.Settled(learned, k, n.me, now).tables);
  }

  lemma RrepQuiet(n: D.Node, m: N.Msg, known: bool, now: nat, junk: nat)
    requires m.Rrep? && n.me != S.NULL_IP && Q.ReplyListable(n, m)
    ensures Quiet(n.tables, Q.RecvRrep(n, m, S.NULL_IP, known, now, junk).0.tables)
  {
    hide Q.Relay, D.RecvRrep, Quiet, InsertTimer, WithoutTimer;
    QuietSame(n.tables);
    var heard := Q.Heard(n, m.from, now);
    RelayQuiet(heard, m, now, junk);
    SourceQuiet(heard, Q.NewsOfReply(m, m.path), now, junk);
  }

  lemma GenRrepQuiet(n: D.Node, flow: Key, now: nat)
    ensures Quiet(n.tables, Q.GenRrep(n, flow, now).0.tables)
  {
    hide D.Settled, T.Find, Quiet;
    QuietSame(n.tables);
    var k := T.Find(n.tables.routes, N.Reverse(flow));
    if k < |n.tables.routes| {
      SettledQuiet(n.(seqNo := n.seqNo + 1), k, n.tables.routes[k].key.src, now);
    }
  }

  lemma ServeQuiet(n: D.Node, now: nat)
    ensures Quiet(n.tables, Q.Serve(n, now).0.tables)
  {
    hide Q.GenRrep, D.Serve, Served, Quiet;
    QuietSame(n.tables);
    D.ServeLeaves(n, now);
    if Q.RepliesNext(n) {
      GenRrepQuiet(n.(tasks := RemoveAt(n.tasks, Served(n.tasks))), n.tasks[Served(n.tasks)].FlowKey(), now);
    }
  }

  /** Whatever the step, routes become invalid only with a new lifetime. */
  lemma StepAges(mesh: Mesh, s: Step, now: nat, x: Ip)
    requires Enabled(mesh, s) && Ordinary(mesh, s, now) && x in mesh.nodes
    requires forall ip: Ip :: ip in mesh.nodes ==> ip != S.NULL_IP && mesh.nodes[ip].me == ip
    requires forall m :: m in mesh.flight ==> Travels(m)
    ensures x in Next(mesh, s, now).nodes && Ages(mesh.nodes[x].tables, Next(mesh, s, now).nodes[x].tables, now)
  {
    hide Q.RecvRreq, Q.RecvRrep, Q.Serve, D.After, R.After, Q.Strands, Q.ReplyListable, Ages, Quiet, D.Enabled;
    hide N.Broadcast, R.Dormant, R.HadValid;
    var n := mesh.nodes[x];
    QuietSame(n.tables);
    QuietAges(n.tables, n.tables, now);
    match s
    case StepHear(i, radio, audience, junk) =>
      var m := mesh.flight[i];
      if m.to == x && m.Rreq? {
        RreqQuiet(n, mesh.routing, m, radio, now, junk);
        QuietAges(n.tables, Q.RecvRreq(n, mesh.routing, m, S.NULL_IP, radio, now, junk).0.tables, now);
      } else if m.to == x {
        RrepQuiet(n, m, radio.Some?, now, junk);
        QuietAges(n.tables, Q.RecvRrep(n, m, S.NULL_IP, radio.Some?, now, junk).0.tables, now);
      }
    case StepServe(_, _) =>
      ServeQuiet(n, now);
      QuietAges(n.tables, Q.Serve(n, now).0.tables, now);
    case StepLocal(y, local, audience) =>
      if y == x {
        var e := LocalEvent(n, local, now);
        EventAges(n.tables, x, e, now);
      }
    case StepLose(_) =>
  }

  lemma QuietAges(t: R.Tables, t': R.Tables, now: nat)
    requires Quiet(t, t')
    ensures Ages(t, t', now)
  {
  }

  // ---- Runs ----

  ghost predicate Start(mesh: Mesh) {
    && mesh.flight == []
    && forall ip: Ip :: ip in mesh.nodes ==>
         ip != S.NULL_IP && mesh.nodes[ip].me == ip && mesh.nodes[ip].seqNo == 1 && D.Start(mesh.nodes[ip])
  }

  /** A run of the mesh, with the time of every state. */
  ghost predicate Run(ms: seq<Mesh>, ss: seq<Step>, clock: seq<nat>) {
    && |ms| == |ss| + 1 == |clock| && Start(ms[0])
    && (forall i, j :: 0 <= i < j < |clock| ==> clock[i] <= clock[j])
    && forall i :: 0 <= i < |ss| ==>
         Enabled(ms[i], ss[i]) && Ordinary(ms[i], ss[i], clock[i]) && ms[i + 1] == Next(ms[i], ss[i], clock[i])
  }

  /** No message carries a number that its issuer had reached a delete period ago: a flood, and a reply, is over by
      then. */
  ghost predicate Prompt(ms: seq<Mesh>, clock: seq<nat>)
    requires |ms| == |clock|
  {
    forall i, j, m :: 0 <= j <= i < |ms| && m in ms[i].flight && clock[j] + DELETE_PERIOD <= clock[i] ==>
      m.id > Number(ms[j], N.RouteKey(m).dst)
  }

  ghost predicate Had(mesh: Mesh, n: Ip, key: Key, id: nat) {
    n in mesh.nodes && exists r :: r in mesh.nodes[n].tables.routes && !r.self && r.key == key && r.id == id
  }

  /** The node had the route with the same id a delete period before its lifetime ends. */
  ghost predicate Traced(ms: seq<Mesh>, clock: seq<nat>, i: nat, n: Ip, r: T.Route)
    requires i < |ms| == |clock|
  {
    exists j :: 0 <= j <= i && clock[j] + DELETE_PERIOD == r.lifetime && Had(ms[j], n, r.key, r.id)
  }

  ghost predicate AllTraced(ms: seq<Mesh>, clock: seq<nat>, i: nat, n: Ip)
    requires i < |ms| == |clock|
  {
    n in ms[i].nodes ==>
      forall r :: r in ms[i].nodes[n].tables.routes && !r.self && r.state == T.Invalid ==> Traced(ms, clock, i, n, r)
  }

  /** So it is with all invalid routes of state `i`. */
  ghost predicate Aged(ms: seq<Mesh>, clock: seq<nat>, i: nat)
    requires i < |ms| == |clock|
  {
    forall n: Ip :: AllTraced(ms, clock, i, n)
  }

  lemma AgedNext(ms: seq<Mesh>, ss: seq<Step>, clock: seq<nat>, i: nat, net: N.Net)
    requires Run(ms, ss, clock) && i < |ss| && Aged(ms, clock, i) && Stands(ms[i], net)
    ensures Aged(ms, clock, i + 1)
  {
    var i' := i + 1;
    forall n: Ip
      ensures AllTraced(ms, clock, i', n)
    {
      SameNodes(ms[i], ss[i], clock[i], n);
      if n in ms[i + 1].nodes {
        StepAges(ms[i], ss[i], clock[i], n);
        hide Run, Stands, Ages;
        forall r | r in ms[i + 1].nodes[n].tables.routes && !r.self && r.state == T.Invalid
          ensures Traced(ms, clock, i + 1, n, r)
        {
          TracedNext(ms, clock, i, n, r, ms[i + 1].nodes[n].tables);
        }
      }
    }
  }

  lemma SameNodes(mesh: Mesh, s: Step, now: nat, n: Ip)
    requires Enabled(mesh, s)
    ensures n in Next(mesh, s, now).nodes <==> n in mesh.nodes
  {
    hide Q.RecvRreq, Q.RecvRrep, Q.Serve, D.After, N.Broadcast;
  }

  lemma TracedNext(ms: seq<Mesh>, clock: seq<nat>, i: nat, n: Ip, r: T.Route, t': R.Tables)
    requires i + 1 < |ms| == |clock| && Aged(ms, clock, i) && n in ms[i].nodes
    requires Ages(ms[i].nodes[n].tables, t', clock[i]) && r in t'.routes && !r.self && r.state == T.Invalid
    ensures Traced(ms, clock, i + 1, n, r)
  {
    var t := ms[i].nodes[n].tables;
    assert AllTraced(ms, clock, i, n);
    if R.Dormant(t, r.key, r.id, r.lifetime) {
      var r0 :| r0 in t.routes && !r0.self && r0.key == r.key && r0.id == r.id && r0.state == T.Invalid
                && r0.lifetime == r.lifetime;
      assert Traced(ms, clock, i, n, r0);
    } else {
      assert Had(ms[i], n, r.key, r.id);
    }
  }

  // ---- Replies that are due ----

  /** The step answers a request of the flow at node `x`. */
  predicate AnswersAt(mesh: Mesh, s: Step, now: nat, x: Ip, flow: Key)
    requires Enabled(mesh, s)
  {
    s.StepHear? && x in mesh.nodes &&
      var m := mesh.flight[s.i];
      m.Rreq? && m.to == x && m.flow == flow
      && Q.RecvRreq(mesh.nodes[x], mesh.routing, m, S.NULL_IP, s.radio, now, s.junk).1.Answered?
  }

  /** The step makes a reply to the flow at node `x`. */
  predicate RepliesAt(mesh: Mesh, s: Step, x: Ip, flow: Key) {
    && s.StepServe? && s.n == x && x in mesh.nodes
    && var n := mesh.nodes[x];
       Q.RepliesNext(n) && n.tasks[Served(n.tasks)].FlowKey() == flow
  }

  /** How many replies to the flow are due at a node changes exactly when a request is answered for which none was
      waiting, and when a reply is made. */
  lemma StepDue(mesh: Mesh, s: Step, now: nat, x: Ip, flow: Key)
    requires Enabled(mesh, s) && x in mesh.nodes
    ensures x in Next(mesh, s, now).nodes
    ensures var n := mesh.nodes[x];
      Pending(Next(mesh, s, now).nodes[x], flow)
        == Pending(n, flow)
           + (if AnswersAt(mesh, s, now, x, flow) && Count(n.timers, flow, TASK_SEND_RREP) == 0 then 1 else 0)
           - (if RepliesAt(mesh, s, x, flow) then 1 else 0)
  {
    hide Q.RecvRreq, Q.RecvRrep, Q.Serve, D.After, D.Enabled, N.Broadcast, Pending, Served;
    var n := mesh.nodes[x];
    match s
    case StepHear(i, radio, audience, junk) =>
      var m := mesh.flight[i];
      if m.to == x && m.Rreq? {
        RreqDue(n, mesh.routing, m, radio, now, junk, flow);
      } else if m.to == x {
        RecvRrepPending(n, m, S.NULL_IP, radio.Some?, now, junk, flow);
      }
    case StepServe(y, _) => ServePending(n, now, flow);
    case StepLocal(y, local, _) =>
      if y == x {
        StepPending(n, local, now, flow);
      }
    case StepLose(_) =>
  }

  lemma RreqDue(n: D.Node, routing: M.Routing, m: N.Msg, radio: Option<N.Radio>, now: nat, junk: nat, flow: Key)
    requires m.Rreq? && (radio.Some? ==> radio.value.link.Valid())
    ensures var (n', out) := Q.RecvRreq(n, routing, m, S.NULL_IP, radio, now, junk);
      Pending(n', flow)
        == Pending(n, flow)
           + (if out.Answered? && m.flow == flow && Count(n.timers, flow, TASK_SEND_RREP) == 0 then 1 else 0)
  {
    hide Q.RecvRreq, Count;
    AnsweredIsDue(n, routing, m, S.NULL_IP, radio, now, junk);
  }

  /** In every state replies are due only at the destinations of their flows. */
  lemma {:induction false} RunDue(ms: seq<Mesh>, ss: seq<Step>, clock: seq<nat>, i: nat)
    requires Run(ms, ss, clock) && i < |ms|
    ensures forall x: Ip :: x in ms[i].nodes ==>
      x != S.NULL_IP && ms[i].nodes[x].me == x && DueHere(ms[i].nodes[x])
  {
    if i == 0 {
      hide R.Boot;
    } else {
      RunDue(ms, ss, clock, i - 1);
      assert Enabled(ms[i - 1], ss[i - 1]) && ms[i] == Next(ms[i - 1], ss[i - 1], clock[i - 1]);
      hide Run, Next, Enabled, DueHere;
      forall x: Ip | x in ms[i].nodes
        ensures x != S.NULL_IP && ms[i].nodes[x].me == x && DueHere(ms[i].nodes[x])
      {
        SameNodes(ms[i - 1], ss[i - 1], clock[i - 1], x);
        DueNext(ms[i - 1], ss[i - 1], clock[i - 1], x);
      }
    }
  }

  lemma DueNext(mesh: Mesh, s: Step, now: nat, x: Ip)
    requires Enabled(mesh, s) && x in mesh.nodes && x == mesh.nodes[x].me != S.NULL_IP && DueHere(mesh.nodes[x])
    ensures x in Next(mesh, s, now).nodes
    ensures Next(mesh, s, now).nodes[x].me == x && DueHere(Next(mesh, s, now).nodes[x])
  {
    hide Next, Enabled, Pending, AnswersAt, RepliesAt;
    SameName(mesh, s, now, x);
    forall flow | Pending(Next(mesh, s, now).nodes[x], flow) > 0
      ensures flow.dst == x != flow.src
    {
      StepDue(mesh, s, now, x, flow);
      DueStays(mesh, s, now, x, flow);
    }
  }

  lemma DueStays(mesh: Mesh, s: Step, now: nat, x: Ip, flow: Key)
    requires Enabled(mesh, s) && x in mesh.nodes && x == mesh.nodes[x].me != S.NULL_IP
    ensures AnswersAt(mesh, s, now, x, flow) ==> flow.dst == x != flow.src
  {
    hide Q.RecvRreq;
    if AnswersAt(mesh, s, now, x, flow) {
      AnsweredIsOurs(mesh.nodes[x], mesh.routing, mesh.flight[s.i], s.radio, now, s.junk);
    }
  }

  /** A node keeps its address. */
  lemma SameName(mesh: Mesh, s: Step, now: nat, x: Ip)
    requires Enabled(mesh, s) && x in mesh.nodes
    ensures x in Next(mesh, s, now).nodes && Next(mesh, s, now).nodes[x].me == mesh.nodes[x].me
  {
    hide Q.RecvRreq, Q.RecvRrep, Q.Serve, D.After, D.Enabled, N.Broadcast;
    var n := mesh.nodes[x];
    match s
    case StepHear(i, radio, audience, junk) =>
      var m := mesh.flight[i];
      if m.to == x && m.Rreq? {
        RreqName(n, mesh.routing, m, radio, now, junk);
      } else if m.to == x {
        RrepName(n, m, radio.Some?, now, junk);
      }
    case StepServe(y, _) => ServeName(n, now);
    case StepLocal(y, local, _) =>
      if y == x {
        var e := LocalEvent(n, local, now);
      }
    case StepLose(_) =>
  }

  lemma RreqName(n: D.Node, routing: M.Routing, m: N.Msg, radio: Option<N.Radio>, now: nat, junk: nat)
    requires m.Rreq? && (radio.Some? ==> radio.value.link.Valid())
    ensures Q.RecvRreq(n, routing, m, S.NULL_IP, radio, now, junk).0.me == n.me
  {
    hide N.PathMetric, R.Learn, Q.ReplyPending, InsertTimer, WithoutTimer;
  }

  lemma RrepName(n: D.Node, m: N.Msg, known: bool, now: nat, junk: nat)
    requires m.Rrep?
    ensures Q.RecvRrep(n, m, S.NULL_IP, known, now, junk).0.me == n.me
  {
    hide R.Learn, D.Confirm, T.FindById, R.Moved, InsertTimer, WithoutTimer, R.After;
    forall n: D.Node, k: nat
      ensures D.Confirm(n, k, now).me == n.me
    {
      ConfirmName(n, k, now);
    }
  }

  lemma ConfirmName(n: D.Node, k: nat, now: nat)
    ensures D.Confirm(n, k, now).me == n.me
  {
  }

  lemma ServeName(n: D.Node, now: nat)
    ensures Q.Serve(n, now).0.me == n.me
  {
    hide Served, InsertTimer, Picked, Judged, T.Find, R.Confirm;
  }

  /** The mesh stands for a state of the network that satisfies the invariant. */
  ghost predicate Sound(mesh: Mesh) {
    exists net :: Stands(mesh, net) && N.Inv(net)
  }

  /** So the code's sweeps, which go by time alone, are safe. */
  lemma SweepIsSafe(ms: seq<Mesh>, ss: seq<Step>, clock: seq<nat>, i: nat, n: Ip)
    requires Run(ms, ss, clock) && Prompt(ms, clock) && i < |ms| && n in ms[i].nodes && Aged(ms, clock, i)
    requires forall j :: 0 <= j <= i ==> Sound(ms[j])
    ensures SafeSweep(ms[i], n, clock[i])
  {
    hide Start, Next, Enabled, Ordinary, N.Inv, Stands;
    forall r, m | r in ms[i].nodes[n].tables.routes && R.Dead(r, clock[i])
                  && m in ms[i].flight && N.RouteKey(m) == r.key
      ensures m.id > r.id
    {
      assert AllTraced(ms, clock, i, n) && Traced(ms, clock, i, n, r);
      var j :| 0 <= j <= i && clock[j] + DELETE_PERIOD == r.lifetime && Had(ms[j], n, r.key, r.id);
      assert clock[j] <= clock[i];
      F.LaterThan(clock[j], clock[i]);
      assert Sound(ms[j]);
      HadIsOld(ms[j], n, r.key, r.id);
      assert m.id > Number(ms[j], N.RouteKey(m).dst);
    }
  }

  lemma HadIsOld(mesh: Mesh, n: Ip, key: Key, id: nat)
    requires Sound(mesh) && Had(mesh, n, key, id)
    ensures id <= Number(mesh, key.dst)
  {
    var net :| Stands(mesh, net) && N.Inv(net);
    var r :| r in mesh.nodes[n].tables.routes && !r.self && r.key == key && r.id == id;
    F.StoredIn(net, n, mesh.nodes[n].tables.routes, r);
    assert N.EntryOk(net, n, key);
    assert N.SeqNo(net, key.dst) == Number(mesh, key.dst);
  }

  /** One step of the mesh is a step of the network, none, or a number of removals. */
  lemma StepStands(ms: seq<Mesh>, ss: seq<Step>, clock: seq<nat>, i: nat, nets: seq<N.Net>, steps: seq<N.Step>)
    returns (nets': seq<N.Net>, steps': seq<N.Step>)
    requires Run(ms, ss, clock) && Prompt(ms, clock) && i < |ss| && Aged(ms, clock, i)
    requires forall j :: 0 <= j <= i ==> Sound(ms[j])
    requires LF.Run(nets, steps) && Stands(ms[i], nets[|steps|])
    ensures LF.Run(nets', steps') && nets <= nets' && Stands(ms[i + 1], nets'[|steps'|])
  {
    var mesh, net, s, now := ms[i], nets[|steps|], ss[i], clock[i];
    LF.RunInv(nets, steps, |steps|);
    if s.StepLocal? && s.s == D.StepTables(R.EventSweep) {
      SweepIsSafe(ms, ss, clock, i, s.n);
      SweepNext(mesh, net, s, now);
      hide N.Inv, Stands, Run, LF.Run, SafeSweep, Next;
      nets', steps' := SweepStands(mesh, nets, steps, s.n, s.audience, now);
    } else {
      assert Enabled(mesh, s) && Ordinary(mesh, s, now) && ms[i + 1] == Next(mesh, s, now);
      RunDue(ms, ss, clock, i);
      assert s.StepServe? ==> DueHere(mesh.nodes[s.n]);
      hide N.Inv, Stands, Run, LF.Run, Enabled, Ordinary, Next, DueHere;
      var net', step := OtherStands(mesh, net, s, now);
      nets', steps' := RunOn(nets, steps, net', step);
    }
  }

  lemma SweepNext(mesh: Mesh, net: N.Net, s: Step, now: nat)
    requires Enabled(mesh, s) && s.StepLocal? && s.s == D.StepTables(R.EventSweep) && Stands(mesh, net)
    ensures var t' := R.Sweep(mesh.nodes[s.n].tables, s.n, now);
      Next(mesh, s, now) == mesh.(nodes := mesh.nodes[s.n := mesh.nodes[s.n].(tables := t')])
  {
    hide R.Sweep, F.Represents;
    assert mesh.flight + [] == mesh.flight;
  }

  lemma OtherStands(mesh: Mesh, net: N.Net, s: Step, now: nat) returns (net': N.Net, step: Option<N.Step>)
    requires s.StepServe? && s.n in mesh.nodes ==> DueHere(mesh.nodes[s.n])
    requires Stands(mesh, net) && N.Inv(net) && Enabled(mesh, s) && Ordinary(mesh, s, now)
    requires !(s.StepLocal? && s.s == D.StepTables(R.EventSweep))
    ensures Stands(Next(mesh, s, now), net') && Follows(net, net', step)
  {
    hide N.Inv;
    match s
    case StepHear(i, radio, audience, junk) =>
      Flights(mesh, net);
      hide Stands, Q.RecvRreq, Q.RecvRrep, Ordinary;
      if mesh.flight[i].to !in mesh.nodes {
        LoseStands(mesh, net, i);
        net', step := N.Drop(net, i), Some(N.StepLose(i));
      } else if mesh.flight[i].Rreq? {
        net', step := RreqStands(mesh, net, i, radio, audience, junk, now);
      } else {
        net', step := RrepStands(mesh, net, i, radio, audience, junk, now);
      }
    case StepServe(n, audience) =>
      net', step := ServeStands(mesh, net, n, audience, now);
    case StepLocal(n, local, audience) =>
      net', step := LocalStands(mesh, net, n, local, audience, now);
    case StepLose(i) =>
      Flights(mesh, net);
      LoseStands(mesh, net, i);
      net', step := N.Drop(net, i), Some(N.StepLose(i));
  }

  lemma StartStands(mesh: Mesh) returns (net: N.Net)
    requires Start(mesh)
    ensures Stands(mesh, net) && N.Init(net)
  {
    net := N.Net(mesh.routing, map[], map[], [], map[], {});
    hide F.Represents;
    forall ip: Ip | ip in mesh.nodes
      ensures F.Represents(net, ip, mesh.nodes[ip].tables.routes)
    {
      F.BootRepresents(net, ip);
    }
  }

  /** Every run of the mesh in which messages are prompt is a run of the network, with safe removals only: each state
      of the mesh stands for one of the network. */
  lemma {:induction false} RunRefines(ms: seq<Mesh>, ss: seq<Step>, clock: seq<nat>)
    returns (nets: seq<N.Net>, steps: seq<N.Step>, at: seq<nat>)
    requires Run(ms, ss, clock) && Prompt(ms, clock)
    ensures LF.Run(nets, steps) && |at| == |ms| && at[|ss|] == |steps|
    ensures forall i :: 0 <= i < |ms| ==> at[i] < |nets| && Stands(ms[i], nets[at[i]])
    ensures forall i, j :: 0 <= i < j < |ms| ==> at[i] <= at[j]
    ensures Aged(ms, clock, |ss|)
    decreases |ss|
  {
    if ss == [] {
      var net := StartStands(ms[0]);
      nets, steps, at := [net], [], [0];
    } else {
      var k := |ss| - 1;
      RunPrefix(ms, ss, clock);
      hide Run, Prompt, Stands, Aged, LF.Run;
      nets, steps, at := RunRefines(ms[..|ss|], ss[..k], clock[..|ss|]);
      AgedPrefix(ms, clock, k);
      var nets', steps' := RunRefinesOn(ms, ss, clock, nets, steps, at);
      nets, steps, at := nets', steps', at + [|steps'|];
    }
  }

  lemma RunPrefix(ms: seq<Mesh>, ss: seq<Step>, clock: seq<nat>)
    requires Run(ms, ss, clock) && Prompt(ms, clock) && ss != []
    ensures |ms| == |clock| == |ss| + 1
    ensures Run(ms[..|ss|], ss[..|ss| - 1], clock[..|ss|]) && Prompt(ms[..|ss|], clock[..|ss|])
  {
    hide Start, Enabled, Ordinary, Next;
  }

  /** From all states but the last to the last. */
  lemma RunRefinesOn(ms: seq<Mesh>, ss: seq<Step>, clock: seq<nat>, nets: seq<N.Net>, steps: seq<N.Step>, at: seq<nat>)
    returns (nets': seq<N.Net>, steps': seq<N.Step>)
    requires Run(ms, ss, clock) && Prompt(ms, clock) && ss != [] && Aged(ms, clock, |ss| - 1)
    requires LF.Run(nets, steps) && |at| == |ss| && at[|ss| - 1] == |steps|
    requires forall i :: 0 <= i < |ss| ==> at[i] < |nets| && Stands(ms[i], nets[at[i]])
    ensures LF.Run(nets', steps') && nets <= nets' && Stands(ms[|ss|], nets'[|steps'|]) && Aged(ms, clock, |ss|)
  {
    var k := |ss| - 1;
    hide Start, Next, Enabled, Ordinary, Stands, Prompt, Aged;
    forall j | 0 <= j <= k
      ensures Sound(ms[j])
    {
      LF.RunInv(nets, steps, at[j]);
    }
    hide Sound, LF.Run;
    AgedNext(ms, ss, clock, k, nets[at[k]]);
    nets', steps' := StepStands(ms, ss, clock, k, nets, steps);
  }

  lemma AgedPrefix(ms: seq<Mesh>, clock: seq<nat>, k: nat)
    requires k + 1 < |ms| == |clock| && Aged(ms[..k + 1], clock[..k + 1], k)
    ensures Aged(ms, clock, k)
  {
    forall n: Ip
      ensures AllTraced(ms, clock, k, n)
    {
      assert AllTraced(ms[..k + 1], clock[..k + 1], k, n);
      if n in ms[k].nodes {
        forall r | r in ms[k].nodes[n].tables.routes && !r.self && r.state == T.Invalid
          ensures Traced(ms, clock, k, n, r)
        {
          assert Traced(ms[..k + 1], clock[..k + 1], k, n, r);
        }
      }
    }
  }

  /** The path that a packet takes by the tables of the nodes: every node but the last has a route for the key, and
      passes to its next hop. At the destination it has arrived. */
  ghost predicate Path(mesh: Mesh, k: Key, p: seq<Ip>) {
    forall i :: 0 <= i < |p| - 1 ==> Passes(mesh, k, p[i], p[i + 1])
  }

  ghost predicate Passes(mesh: Mesh, k: Key, n: Ip, next: Ip) {
    n in mesh.nodes && n != k.dst && exists r :: r in mesh.nodes[n].tables.routes && r.key == k && r.nextHop == next
  }

  /** No hop leads to the source of the key, and every hop but one from there is the network's. */
  lemma HopOf(mesh: Mesh, net: N.Net, k: Key, n: Ip, next: Ip)
    requires Stands(mesh, net) && N.Inv(net) && Passes(mesh, k, n, next)
    ensures next != k.src
    ensures n != k.src ==> (n, k) in net.tables && net.tables[(n, k)].nextHop == next
  {
    var rs := mesh.nodes[n].tables.routes;
    var r :| r in rs && r.key == k && r.nextHop == next;
    F.StoredIn(net, n, rs, r);
    if r.self {
      assert r.key.src == n;
      Q.OwnIsSensible(net);
    } else {
      assert N.EntryOk(net, n, k);
    }
  }

  /** The tables that the nodes keep, with their expiry by time alone, make no loops: in no state of such a run does a
      path visit a node twice. */
  lemma NoLoops(ms: seq<Mesh>, ss: seq<Step>, clock: seq<nat>, i: nat, k: Key, p: seq<Ip>)
    requires Run(ms, ss, clock) && Prompt(ms, clock) && i < |ms| && Path(ms[i], k, p)
    ensures Distinct(p)
  {
    var nets, steps, at := RunRefines(ms, ss, clock);
    LF.RunInv(nets, steps, at[i]);
    hide Run, LF.Run, Prompt, Stands, N.Inv, LF.Path, Distinct;
    if p != [] {
      HopsAway(ms[i], nets[at[i]], k, p);
      var rest := if p[0] == k.src then p[1..] else p;
      RestOf(ms[i], nets[at[i]], k, p, rest);
      LF.NoLoops(nets, steps, at[i], k, rest);
      FirstApart(k.src, p, rest);
    }
  }

  lemma HopsAway(mesh: Mesh, net: N.Net, k: Key, p: seq<Ip>)
    requires Stands(mesh, net) && N.Inv(net) && Path(mesh, k, p)
    ensures forall j :: 0 < j < |p| ==> p[j] != k.src
  {
    hide Stands, N.Inv, Passes;
    forall j | 0 < j < |p|
      ensures p[j] != k.src
    {
      var before := j - 1;
      assert Passes(mesh, k, p[before], p[before + 1]);
      HopOf(mesh, net, k, p[before], p[j]);
    }
  }

  /** From its second node on, if not from the first, it is a path of the network. */
  lemma RestOf(mesh: Mesh, net: N.Net, k: Key, p: seq<Ip>, rest: seq<Ip>)
    requires Stands(mesh, net) && N.Inv(net) && Path(mesh, k, p)
    requires p != [] && rest == (if p[0] == k.src then p[1..] else p) && forall j :: 0 < j < |p| ==> p[j] != k.src
    ensures LF.Path(net, k, rest)
  {
    hide Stands, N.Inv, Passes;
    forall j | 0 <= j < |rest| - 1
      ensures (rest[j], k) in net.tables && net.tables[(rest[j], k)].nextHop == rest[j + 1]
    {
      var at := if p[0] == k.src then j + 1 else j;
      assert rest[j] == p[at] && rest[j + 1] == p[at + 1];
      assert Passes(mesh, k, p[at], p[at + 1]);
      HopOf(mesh, net, k, p[at], p[at + 1]);
    }
  }

  lemma FirstApart(src: Ip, p: seq<Ip>, rest: seq<Ip>)
    requires p != [] && rest == (if p[0] == src then p[1..] else p) && Distinct(rest)
    requires forall j :: 0 < j < |p| ==> p[j] != src
    ensures Distinct(p)
  {
    if p[0] == src {
      forall a, b | 0 <= a < b < |p|
        ensures p[a] != p[b]
      {
        assert a > 0 ==> rest[a - 1] == p[a] && rest[b - 1] == p[b];
      }
    }
  }

  /** In every such state, a reply that leads its source to another route than its flow's own leads to the one to a
      neighbour. */
  lemma OnlyNeighboursMislead(ms: seq<Mesh>, ss: seq<Step>, clock: seq<nat>, i: nat, m: N.Msg)
    requires Run(ms, ss, clock) && Prompt(ms, clock) && i < |ms|
    requires m in ms[i].flight && m.Rrep? && m.to == m.flow.src && m.to in ms[i].nodes
    ensures var n := ms[i].nodes[m.to];
      var news := Q.NewsOfReply(m, m.path);
      D.FindsOther(n, news) ==>
        var r := n.tables.routes[D.SameId(n, news)];
        r.self && r.key.src == n.me && r.key.dst == m.flow.dst != n.me
  {
    var nets, steps, at := RunRefines(ms, ss, clock);
    hide Run, LF.Run, Prompt, D.FindsOther, D.SameId;
    Q.OnlyNeighboursMislead(nets, steps, at[i], m, ms[i].nodes[m.to]);
  }

  // ---- Held packets ----

  /** A reply that reaches the source of its flow finds its own route there, or nothing is lost. */
  predicate Timely(mesh: Mesh, s: Step, now: nat)
    requires Enabled(mesh, s)
  {
    s.StepHear? ==>
      var m := mesh.flight[s.i];
      m.Rrep? && m.to in mesh.nodes && m.flow.src == m.to && s.radio.Some? ==>
        D.Timely(Q.Heard(mesh.nodes[m.to], m.from, now), Q.NewsOfReply(m, m.path))
  }

  /** Every node has itself as a source, and something pending for every packet of its own flows that it holds. */
  ghost predicate PacketsKept(mesh: Mesh) {
    forall n: Ip :: n in mesh.nodes ==>
      && n != S.NULL_IP && mesh.nodes[n].me == n
      && D.SelfListed(mesh.nodes[n]) && D.NoneStranded(mesh.nodes[n])
  }

  lemma HearKeepsPackets(mesh: Mesh, i: nat, radio: Option<N.Radio>, audience: seq<Ip>, junk: nat, now: nat)
    requires PacketsKept(mesh) && Enabled(mesh, StepHear(i, radio, audience, junk))
    requires Timely(mesh, StepHear(i, radio, audience, junk), now)
    ensures PacketsKept(Hear(mesh, i, radio, audience, junk, now))
  {
    var m := mesh.flight[i];
    if m.to in mesh.nodes {
      var n := mesh.nodes[m.to];
      assert n.me == m.to != S.NULL_IP && D.SelfListed(n) && D.NoneStranded(n);
      hide D.SelfListed, D.NoneStranded, Q.RecvRreq, Q.RecvRrep, D.Timely, N.Broadcast, Q.Sent, Passed, PacketsKept;
      var rest := RemoveAt(mesh.flight, i);
      if m.Rreq? {
        RreqKeepsPackets(n, mesh.routing, m, radio, now, junk);
        var (n', out) := Q.RecvRreq(n, mesh.routing, m, S.NULL_IP, radio, now, junk);
        KeptAt(mesh, m.to, n', rest + Passed(m, out, audience));
      } else {
        RrepKeepsPackets(n, m, radio.Some?, now, junk);
        var (n', out) := Q.RecvRrep(n, m, S.NULL_IP, radio.Some?, now, junk);
        KeptAt(mesh, m.to, n', rest + Q.Sent(out));
      }
    }
  }

  lemma KeptAt(mesh: Mesh, x: Ip, n': D.Node, flight: seq<N.Msg>)
    requires PacketsKept(mesh) && x in mesh.nodes
    requires D.SelfListed(n') && D.NoneStranded(n') && n'.me == x
    ensures PacketsKept(mesh.(nodes := mesh.nodes[x := n'], flight := flight))
  {
    hide D.SelfListed, D.NoneStranded;
  }

  lemma RreqKeepsPackets(n: D.Node, routing: M.Routing, m: N.Msg, radio: Option<N.Radio>, now: nat, junk: nat)
    requires m.Rreq? && (radio.Some? ==> radio.value.link.Valid()) && D.SelfListed(n) && D.NoneStranded(n)
    ensures var n' := Q.RecvRreq(n, routing, m, S.NULL_IP, radio, now, junk).0;
      D.SelfListed(n') && D.NoneStranded(n') && n'.me == n.me
  {
    hide D.SelfListed, D.NoneStranded, Q.RecvRreq, H.Leads;
    var ss := H.RecvRreqSteps(n, routing, m, S.NULL_IP, radio, now, junk);
    H.LeadsKeeps(n, ss, now, Q.RecvRreq(n, routing, m, S.NULL_IP, radio, now, junk).0);
  }

  lemma RrepKeepsPackets(n: D.Node, m: N.Msg, known: bool, now: nat, junk: nat)
    requires m.Rrep? && n.me != S.NULL_IP && D.SelfListed(n) && D.NoneStranded(n)
    requires m.flow.src == n.me && known ==> D.Timely(Q.Heard(n, m.from, now), Q.NewsOfReply(m, m.path))
    ensures var n' := Q.RecvRrep(n, m, S.NULL_IP, known, now, junk).0;
      D.SelfListed(n') && D.NoneStranded(n') && n'.me == n.me
  {
    hide D.SelfListed, D.NoneStranded, Q.RecvRrep, D.Timely, H.Leads;
    if m.flow.src == n.me && known {
      SourceKeepsPackets(n, m, now, junk);
    } else {
      var ss := H.RecvRrepSteps(n, m, known, now, junk);
      H.LeadsKeeps(n, ss, now, Q.RecvRrep(n, m, S.NULL_IP, known, now, junk).0);
    }
  }

  lemma SourceKeepsPackets(n: D.Node, m: N.Msg, now: nat, junk: nat)
    requires m.Rrep? && m.flow.src == n.me && D.SelfListed(n) && D.NoneStranded(n)
    requires D.Timely(Q.Heard(n, m.from, now), Q.NewsOfReply(m, m.path))
    ensures var n' := Q.RecvRrep(n, m, S.NULL_IP, true, now, junk).0;
      D.SelfListed(n') && D.NoneStranded(n') && n'.me == n.me
  {
    var heard := Q.Heard(n, m.from, now);
    assert heard.me == n.me;
    hide D.SelfListed, D.NoneStranded, D.Timely, H.Leads, D.RecvRrep, Q.Heard;
    var hs := H.HeardSteps(n, m.from, now);
    H.LeadsKeeps(n, hs, now, heard);
    var s := D.StepRrep(Q.NewsOfReply(m, m.path), junk);
    D.StepKeepsMe(heard, s, now);
    D.StepKeepsPackets(heard, s, now);
  }

  lemma ServeKeepsPackets(n: D.Node, now: nat)
    requires D.SelfListed(n) && D.NoneStranded(n)
    ensures var n' := Q.Serve(n, now).0; D.SelfListed(n') && D.NoneStranded(n') && n'.me == n.me
  {
    hide D.SelfListed, D.NoneStranded, Q.Serve, H.Leads;
    var ss := H.ServeSteps(n, now);
    H.LeadsKeeps(n, ss, now, Q.Serve(n, now).0);
  }

  lemma StepKeepsPackets(mesh: Mesh, s: Step, now: nat)
    requires PacketsKept(mesh) && Enabled(mesh, s) && Timely(mesh, s, now)
    ensures PacketsKept(Next(mesh, s, now))
  {
    hide D.SelfListed, D.NoneStranded, D.After, D.Enabled, Q.Serve, Hear, N.Broadcast;
    match s
    case StepHear(i, radio, audience, junk) =>
      HearKeepsPackets(mesh, i, radio, audience, junk, now);
    case StepServe(n, audience) =>
      ServeKeepsPackets(mesh.nodes[n], now);
    case StepLocal(n, local, audience) =>
      D.StepKeepsMe(mesh.nodes[n], local, now);
      D.StepKeepsPackets(mesh.nodes[n], local, now);
    case StepLose(_) =>
  }

  /** As long as replies are timely, no node of the mesh ever holds a packet of its own flows for which nothing is
      pending, whatever is lost, requested, relayed or swept. */
  lemma {:induction false} NoneForgotten(ms: seq<Mesh>, ss: seq<Step>, clock: seq<nat>, i: nat)
    requires Run(ms, ss, clock) && i < |ms|
    requires forall j :: 0 <= j < |ss| ==> Enabled(ms[j], ss[j]) && Timely(ms[j], ss[j], clock[j])
    ensures PacketsKept(ms[i])
  {
    if i == 0 {
      hide D.SelfListed;
      forall n: Ip | n in ms[0].nodes
        ensures D.SelfListed(ms[0].nodes[n])
      {
        StartListed(ms[0].nodes[n]);
      }
    } else {
      hide Start, Next, Timely, Enabled, Ordinary, PacketsKept;
      NoneForgotten(ms, ss, clock, i - 1);
      StepKeepsPackets(ms[i - 1], ss[i - 1], clock[i - 1]);
    }
  }

  lemma StartListed(n: D.Node)
    requires D.Start(n)
    ensures D.SelfListed(n)
  {
    D.BootListed(n.me);
  }
}
