/** What a node does with the requests and replies it hears (`recv_rreq` in rreq.c, `recv_rrep` and `gen_rrep` in
    rrep.c), on its own tables and queues, and that these are steps of the network model. */
module Requests {
  import opened Types
  import opened TaskQueues
  import opened TimerQueues
  import D = Discovery
  import M = Metrics
  import N = Network
  import R = Routing
  import S = SourceLists
  import T = RouteTables
  import F = Refinement
  import LF = LoopFreedom

  // ---- Requests heard ----

  /** The request is ignored, or this is where it was going and a reply will be sent, or it is broadcast again. */
  datatype Outcome = Ignored | Answered | Forwarded(ttl: nat, hops: nat, metric: nat)

  /** A neighbour that is heard has its timer set anew. */
  function Heard(n: D.Node, ip: Ip, now: nat): D.Node {
    n.(timers := InsertTimer(WithoutTimer(n.timers, Key(ip, ip, NO_TOS), TASK_NEIGHBOR),
                             SimpleTimer(TASK_NEIGHBOR, NEIGHBOR_TIMEOUT, ip, now)))
  }

  predicate ReplyPending(timers: seq<TaskInfo>, flow: Key) {
    exists j :: 0 <= j < |timers| && Matches(timers[j], flow, TASK_SEND_RREP)
  }

  /** The reply waits a while for better requests; one that is already to be sent will use the newest route. */
  function AwaitReply(n: D.Node, flow: Key, now: nat): D.Node {
    if ReplyPending(n.timers, flow) then n
    else n.(timers := InsertTimer(n.timers, DirectionalTimer(TASK_SEND_RREP, RREP_TIMER, 0, flow, now)))
  }

  /** The reverse route that a request brings. */
  function NewsOf(m: N.Msg, metric: nat): R.News
    requires m.Rreq?
  {
    R.News(N.Reverse(m.flow), m.from, (m.hops + 1) % U8, m.id, metric)
  }

  /** Whether the request was going to this node, as the destination of the flow or as the gateway that it names. */
  predicate IamDestination(n: D.Node, m: N.Msg, gw: Ip) {
    m.flow.dst == n.me || gw == n.me
  }

  /** What becomes of a request with an acceptable metric. */
  function Take(n: D.Node, m: N.Msg, iamDestination: bool, metric: nat, now: nat, junk: nat): (D.Node, Outcome)
    requires m.Rreq? && (m.ttl > 1 || iamDestination)
  {
    var (tables, ok) := R.Learn(n.tables, n.me, NewsOf(m, metric), now, junk);
    var learned := n.(tables := tables);
    if !ok then (learned, Ignored)
    else if iamDestination then (AwaitReply(learned, m.flow, now), Answered)
    else (learned, Forwarded(m.ttl - 1, (m.hops + 1) % U8, metric))
  }

  /** What becomes of a request from a known neighbour that is not out of time. */
  function Judge(n: D.Node, routing: M.Routing, m: N.Msg, gw: Ip, radio: N.Radio, now: nat, junk: nat)
    : (D.Node, Outcome)
    requires m.Rreq? && radio.link.Valid() && (m.ttl > 1 || IamDestination(n, m, gw))
  {
    if m.flow.src == n.me then (n, Ignored)
    else if n.gateway && m.flow.dst == S.NULL_IP && gw != n.me then (n, Ignored)
    else
      match N.PathMetric(routing, radio, m.flow.tos, (m.hops + 1) % U8, m.metric)
      case Refused => (n, Ignored)
      case NullFlow => (n, Ignored)
      case Total(metric) =>
        Take(n, m, IamDestination(n, m, gw), metric, now, junk)
  }

  /** `recv_rreq`. The request names the gateway `gw`; `radio` is what is known of its sender, if that is a known
      neighbour. */
  function RecvRreq(n: D.Node, routing: M.Routing, m: N.Msg, gw: Ip, radio: Option<N.Radio>, now: nat, junk: nat)
    : (D.Node, Outcome)
    requires m.Rreq? && (radio.Some? ==> radio.value.link.Valid())
  {
    if m.ttl <= 1 && !IamDestination(n, m, gw) then (n, Ignored)
    else if radio == None then (n, Ignored)
    else Judge(Heard(n, m.from, now), routing, m, gw, radio.value, now, junk)
  }

  // ---- Replies heard ----

  /** What a reply says about its flow, where the rest of its path has that metric. */
  function NewsOfReply(m: N.Msg, metric: nat): R.News
    requires m.Rrep?
  {
    R.News(m.flow, m.from, (m.hops + 1) % U8, m.id, metric)
  }

  /** A confirmation leaves all routes where they lead. */
  lemma ConfirmKeepsHops(n: D.Node, k: nat, now: nat)
    ensures var rs' := D.Confirm(n, k, now).tables.routes;
      |rs'| == |n.tables.routes| && forall i :: 0 <= i < |rs'| ==> rs'[i].nextHop == n.tables.routes[i].nextHop
  {
    hide S.Find;
  }

  /** Both ways of a flow are confirmed, and each learns where the other leads. */
  function Joined(n: D.Node, j: nat, k: nat, now: nat): (n': D.Node)
    requires j < |n.tables.routes| && k < |n.tables.routes|
  {
    var confirmed := D.Confirm(D.Confirm(n, j, now), k, now);
    var ahead := D.LastHop(confirmed, k, n.tables.routes[j].nextHop, now);
    D.LastHop(ahead, j, n.tables.routes[k].nextHop, now)
  }

  /** `recv_rrep` at a relay: the way back is looked up by id, the route ahead is learned and looked up in turn, and
      the reply goes on. */
  function Relay(n: D.Node, m: N.Msg, now: nat, junk: nat): (D.Node, Option<N.Msg>)
    requires m.Rrep?
  {
    var rs := n.tables.routes;
    var j := T.FindById(rs, m.flow.src, m.srcId);
    if j == |rs| then (n, None)
    else
      var news := NewsOfReply(m, N.Sub32(m.path, rs[j].metric));
      var learned := n.(tables := R.Learn(n.tables, n.me, news, now, junk).0);
      var k := T.FindById(learned.tables.routes, m.flow.dst, m.id);
      if k == |learned.tables.routes| then (learned, None)
      else
        R.LearnMoves(n.tables, n.me, news, now, junk, j);
        var back := R.Moved(rs, m.flow, j);
        var to := learned.tables.routes[back].nextHop;
        (Joined(learned, back, k, now),
         Some(N.Rrep(to, n.me, m.flow, m.id, m.srcId, news.hops, m.path, rs[j].metric)))
  }

  /** The reply is for this node: it is the source of the flow, or the gateway that speaks for it. */
  predicate IamSource(n: D.Node, m: N.Msg, gw: Ip) {
    m.flow.src == n.me || (m.flow.src == S.NULL_IP && gw == n.me)
  }

  /** `recv_rrep`. The reply names the gateway `gw`, and comes from a known neighbour or not. */
  function RecvRrep(n: D.Node, m: N.Msg, gw: Ip, known: bool, now: nat, junk: nat): (D.Node, Option<N.Msg>)
    requires m.Rrep?
  {
    if !known then (n, None)
    else
      var heard := Heard(n, m.from, now);
      if IamSource(n, m, gw) then (D.RecvRrep(heard, NewsOfReply(m, m.path), now, junk), None)
      else Relay(heard, m, now, junk)
  }

  // ---- Replies made ----

  /** `gen_rrep` for the flow, on the route that the best request has left. */
  function GenRrep(n: D.Node, flow: Key, now: nat): (D.Node, Option<N.Msg>) {
    var k := T.Find(n.tables.routes, N.Reverse(flow));
    if k == |n.tables.routes| then (n, None)
    else
      var route := n.tables.routes[k];
      (D.Settled(n.(seqNo := n.seqNo + 1), k, route.key.src, now),
       Some(N.Rrep(route.nextHop, n.me, flow, n.seqNo + 1, route.id, 0, route.metric, route.metric)))
  }

  /** The next task is a reply to send. */
  predicate RepliesNext(n: D.Node) {
    n.tasks != [] && n.tasks[Served(n.tasks)].kind == TASK_SEND_RREP
  }

  /** The daemon serves one task: it makes a reply, or goes on with a discovery. */
  function Serve(n: D.Node, now: nat): (D.Node, Option<N.Msg>) {
    if RepliesNext(n) then
      var i := Served(n.tasks);
      GenRrep(n.(tasks := RemoveAt(n.tasks, i)), n.tasks[i].FlowKey(), now)
    else (D.Serve(n, now), None)
  }

  /** What a message brings onto the air: without an address it goes nowhere. */
  function Sent(out: Option<N.Msg>): seq<N.Msg> {
    if out == None || out.value.to == S.NULL_IP then [] else [out.value]
  }

  // ---- The handlers are steps of the network ----

  /** The source of the route that the request brings cannot be listed. */
  predicate Strands(n: D.Node, routing: M.Routing, m: N.Msg, radio: Option<N.Radio>)
    requires m.Rreq? && (radio.Some? ==> radio.value.link.Valid())
  {
    && radio.Some?
    && var metric := N.PathMetric(routing, radio.value, m.flow.tos, (m.hops + 1) % U8, m.metric);
       metric.Total? && R.Strands(n.tables, NewsOf(m, metric.path))
  }

  lemma FlightRepresents(net: N.Net, flight: seq<N.Msg>, n: Ip, rs: seq<T.Route>)
    requires F.Represents(net, n, rs)
    ensures F.Represents(net.(flight := flight), n, rs)
  {
    F.Elsewhere(net, net.(flight := flight), n + 1, n, rs);
  }

  /** The metric with which a request for traffic inside the mesh comes to be learned, if it does. */
  function Learnable(me: Ip, routing: M.Routing, m: N.Msg, radio: Option<N.Radio>): Option<nat>
    requires m.Rreq? && (radio.Some? ==> radio.value.link.Valid())
  {
    if radio == None || m.flow.src == me || (m.ttl <= 1 && m.flow.dst != me) then None
    else
      match N.PathMetric(routing, radio.value, m.flow.tos, (m.hops + 1) % U8, m.metric)
      case Total(metric) => Some(metric)
      case _ => None
  }

  /** What the network does with the request at position `i` when this node hears it. It is lost if the node ignores it
      without a look at its tables, and remembered apart if it meets a route of the node's own making. */
  function Heeded(net: N.Net, i: nat, n: D.Node, radio: Option<N.Radio>, audience: seq<Ip>): N.Net
    requires i < |net.flight| && net.flight[i].Rreq? && (radio.Some? ==> radio.value.link.Valid())
  {
    var m := net.flight[i];
    match Learnable(n.me, net.routing, m, radio)
    case None => N.Drop(net, i)
    case Some(metric) =>
      if F.OnOwn(n.tables.routes, N.RouteKey(m)) then
        F.InNet(N.Drop(net, i), n.me, n.tables.routes, NewsOf(m, metric))
      else N.RecvRreq(net, i, radio.value, audience)
  }

  /** What the handler does to the tables, and what it sends on. */
  lemma RreqOutcome(n: D.Node, routing: M.Routing, m: N.Msg, radio: Option<N.Radio>, now: nat, junk: nat)
    requires m.Rreq? && m.flow.dst != S.NULL_IP && n.me != S.NULL_IP && (radio.Some? ==> radio.value.link.Valid())
    ensures var (n', out) := RecvRreq(n, routing, m, S.NULL_IP, radio, now, junk);
      && n'.me == n.me && n'.seqNo == n.seqNo
      && match Learnable(n.me, routing, m, radio)
         case None => n'.tables == n.tables && out == Ignored
         case Some(metric) =>
           var (t', ok) := R.Learn(n.tables, n.me, NewsOf(m, metric), now, junk);
           && n'.tables == t'
           && out == if !ok then Ignored else if m.flow.dst == n.me then Answered
                     else Forwarded(m.ttl - 1, (m.hops + 1) % U8, metric)
  {
    hide N.PathMetric, R.Learn, AwaitReply, InsertTimer, WithoutTimer;
    hide Take;
    var heard := Heard(n, m.from, now);
    match Learnable(n.me, routing, m, radio) {
      case None =>
      case Some(metric) => TakeOutcome(heard, m, m.flow.dst == n.me, metric, now, junk);
    }
  }

  lemma TakeOutcome(n: D.Node, m: N.Msg, iamDestination: bool, metric: nat, now: nat, junk: nat)
    requires m.Rreq? && (m.ttl > 1 || iamDestination)
    ensures var (n', out) := Take(n, m, iamDestination, metric, now, junk);
      var (t', ok) := R.Learn(n.tables, n.me, NewsOf(m, metric), now, junk);
      && n'.tables == t' && n'.me == n.me && n'.seqNo == n.seqNo
      && out == if !ok then Ignored else if iamDestination then Answered
                else Forwarded(m.ttl - 1, (m.hops + 1) % U8, metric)
  {
    hide R.Learn, InsertTimer, ReplyPending, DirectionalTimer;
  }

  /** What the network does with it. */
  lemma RreqInstalls(net: N.Net, i: nat, radio: N.Radio, audience: seq<Ip>)
    requires i < |net.flight| && net.flight[i].Rreq? && radio.link.Valid()
    ensures var m := net.flight[i];
      var rest := N.Drop(net, i);
      N.RecvRreq(net, i, radio, audience)
        == match Learnable(m.to, net.routing, m, Some(radio))
           case None => rest
           case Some(metric) =>
             var hops := (m.hops + 1) % U8;
             N.Install(rest, m.to, N.RouteKey(m), N.Entry(m.id, metric, hops, m.from)).(
               flight := rest.flight
                 + (if N.Accepts(rest, m.to, N.RouteKey(m), m.id, metric) && m.flow.dst != m.to
                    then N.Broadcast(m.to, audience, m.ttl - 1, m.flow, m.id, hops, metric) else []))
  {
    hide N.PathMetric, N.Broadcast, N.Beats;
    assert N.Drop(net, i).flight + [] == N.Drop(net, i).flight;
  }

  /** For traffic inside the mesh, which names no gateway, the handler on the tables of the node is the step of the
      network model: the same route, the same broadcast, and nothing else. */
  lemma {:induction false} RecvRreqRefines(net: N.Net, i: nat, n: D.Node, radio: Option<N.Radio>, audience: seq<Ip>,
                                           now: nat, junk: nat)
    returns (step: N.Step)
    requires i < |net.flight| && net.flight[i].Rreq? && net.flight[i].to == n.me && N.MsgOk(net, net.flight[i])
    requires net.flight[i].from != S.NULL_IP && net.flight[i].flow.dst != S.NULL_IP && n.me != S.NULL_IP
    requires net.flight[i].to !in audience && (radio.Some? ==> radio.value.link.Valid())
    requires F.Represents(net, n.me, n.tables.routes) && !Strands(n, net.routing, net.flight[i], radio)
    ensures var m := net.flight[i];
      var (n', out) := RecvRreq(n, net.routing, m, S.NULL_IP, radio, now, junk);
      var net' := Heeded(net, i, n, radio, audience);
      && N.NextStep(net, net', step) && !step.StepRemove?
      && (step.StepRecvRreq? <==>
            (Learnable(n.me, net.routing, m, radio).Some? && !F.OnOwn(n.tables.routes, N.RouteKey(m))))
      && F.Represents(net', n.me, n'.tables.routes) && F.OnlyAt(net, net', n.me)
      && n'.me == n.me && n'.seqNo == n.seqNo && net'.seqNo == net.seqNo
      && net'.flight == N.Drop(net, i).flight
           + (if out.Forwarded? then N.Broadcast(n.me, audience, out.ttl, m.flow, m.id, out.hops, out.metric) else [])
  {
    hide R.Learn, R.Strands, N.Broadcast, F.Represents, N.Beats, F.OnOwn, RecvRreq, N.RecvRreq, Strands;
    hide N.PathMetric, N.NextStep, Heeded, Learnable, F.OnlyAt, N.MsgOk;
    step := HeededSteps(net, i, n, radio, audience);
    var m := net.flight[i];
    HeededAt(net, i, n, radio, audience);
    RreqOutcome(n, net.routing, m, radio, now, junk);
    match Learnable(n.me, net.routing, m, radio) {
      case None =>
        HeededNone(net, i, n, radio, audience);
      case Some(metric) =>
        LearnableStrands(n, net.routing, m, radio);
        HeededLearns(net, i, n, radio, audience, metric, now, junk);
    }
  }

  lemma LearnableStrands(n: D.Node, routing: M.Routing, m: N.Msg, radio: Option<N.Radio>)
    requires m.Rreq? && (radio.Some? ==> radio.value.link.Valid())
    requires Learnable(n.me, routing, m, radio).Some? && !Strands(n, routing, m, radio)
    ensures !R.Strands(n.tables, NewsOf(m, Learnable(n.me, routing, m, radio).value))
  {
    hide N.PathMetric, R.Strands;
  }

  lemma HeededSteps(net: N.Net, i: nat, n: D.Node, radio: Option<N.Radio>, audience: seq<Ip>) returns (step: N.Step)
    requires i < |net.flight| && net.flight[i].Rreq? && net.flight[i].to == n.me && net.flight[i].to !in audience
    requires radio.Some? ==> radio.value.link.Valid()
    requires F.Represents(net, n.me, n.tables.routes)
    ensures N.NextStep(net, Heeded(net, i, n, radio, audience), step) && !step.StepRemove?
    ensures step.StepRecvRreq? <==>
      Learnable(n.me, net.routing, net.flight[i], radio).Some? && !F.OnOwn(n.tables.routes, N.RouteKey(net.flight[i]))
  {
    hide N.RecvRreq, N.PathMetric, F.Represents, T.Find;
    var key := N.RouteKey(net.flight[i]);
    if Learnable(n.me, net.routing, net.flight[i], radio) == None {
      step := N.StepLose(i);
    } else if !F.OnOwn(n.tables.routes, key) {
      step := N.StepRecvRreq(i, radio.value, audience);
    } else {
      F.OwnStartsHere(net, n.me, n.tables.routes, key);
      step := if Heeded(net, i, n, radio, audience) == N.Drop(net, i) then N.StepLose(i) else N.StepOwn(i, radio.value);
    }
  }

  lemma HeededAt(net: N.Net, i: nat, n: D.Node, radio: Option<N.Radio>, audience: seq<Ip>)
    requires i < |net.flight| && net.flight[i].Rreq? && net.flight[i].to == n.me
    requires radio.Some? ==> radio.value.link.Valid()
    ensures var net' := Heeded(net, i, n, radio, audience);
      F.OnlyAt(net, net', n.me) && net'.seqNo == net.seqNo && net'.issued == net.issued
  {
    hide N.PathMetric, N.Broadcast, N.Beats, T.Find;
  }

  lemma HeededNone(net: N.Net, i: nat, n: D.Node, radio: Option<N.Radio>, audience: seq<Ip>)
    requires i < |net.flight| && net.flight[i].Rreq? && net.flight[i].to == n.me
    requires radio.Some? ==> radio.value.link.Valid()
    requires Learnable(n.me, net.routing, net.flight[i], radio) == None
    requires F.Represents(net, n.me, n.tables.routes)
    ensures var net' := Heeded(net, i, n, radio, audience);
      net' == N.Drop(net, i) && F.Represents(net', n.me, n.tables.routes) && net'.flight + [] == net'.flight
  {
    hide Learnable, F.Represents, N.RecvRreq, F.OnOwn;
    FlightRepresents(net, N.Drop(net, i).flight, n.me, n.tables.routes);
    assert N.Drop(net, i).flight + [] == N.Drop(net, i).flight;
  }

  lemma HeededLearns(net: N.Net, i: nat, n: D.Node, radio: Option<N.Radio>, audience: seq<Ip>, metric: nat, now: nat,
                     junk: nat)
    requires i < |net.flight| && net.flight[i].Rreq? && net.flight[i].to == n.me && N.MsgOk(net, net.flight[i])
    requires (radio.Some? ==> radio.value.link.Valid()) && net.flight[i].from != S.NULL_IP
    requires Learnable(n.me, net.routing, net.flight[i], radio) == Some(metric)
    requires F.Represents(net, n.me, n.tables.routes) && !R.Strands(n.tables, NewsOf(net.flight[i], metric))
    ensures var m := net.flight[i];
      var (t', ok) := R.Learn(n.tables, n.me, NewsOf(m, metric), now, junk);
      var net' := Heeded(net, i, n, radio, audience);
      && F.Represents(net', n.me, t'.routes)
      && net'.flight == N.Drop(net, i).flight
           + (if ok && m.flow.dst != n.me
              then N.Broadcast(n.me, audience, m.ttl - 1, m.flow, m.id, (m.hops + 1) % U8, metric) else [])
  {
    assert radio.Some?;
    hide R.Learn, R.Strands, N.Broadcast, F.Represents, N.Beats, F.OnOwn, Learnable, N.RecvRreq;
    var m := net.flight[i];
    var rest := N.Drop(net, i);
    var key := N.RouteKey(m);
    FlightRepresents(net, rest.flight, n.me, n.tables.routes);
    F.LearnRefinesInstall(rest, n.me, n.tables, NewsOf(m, metric), now, junk);
    if F.OnOwn(n.tables.routes, key) {
      F.OwnStartsHere(net, n.me, n.tables.routes, key);
      assert rest.flight + [] == rest.flight;
    } else {
      RreqInstalls(net, i, radio.value, audience);
      var e := N.Entry(m.id, metric, (m.hops + 1) % U8, m.from);
      var learned := R.Learn(n.tables, n.me, NewsOf(m, metric), now, junk).0.routes;
      FlightRepresents(N.Install(rest, n.me, key, e), Heeded(net, i, n, radio, audience).flight, n.me, learned);
    }
  }

  // ---- Replies are steps of the network ----

  lemma ConfirmRepresents(net: N.Net, n: D.Node, k: nat, now: nat)
    requires F.Represents(net, n.me, n.tables.routes)
    ensures F.Represents(net, n.me, D.Confirm(n, k, now).tables.routes)
    ensures var n' := D.Confirm(n, k, now); n'.me == n.me && n'.seqNo == n.seqNo
  {
    hide F.Represents, R.Confirm;
    F.OthersRefineNothing(net, n.me, n.tables, R.EventConfirm(k), now);
  }

  lemma SettledRepresents(net: N.Net, n: D.Node, k: nat, hop: Ip, now: nat)
    requires F.Represents(net, n.me, n.tables.routes)
    ensures var n' := D.Settled(n, k, hop, now);
      F.Represents(net, n.me, n'.tables.routes) && n'.me == n.me && n'.seqNo == n.seqNo
  {
    hide F.Represents, D.Confirm, R.After;
    ConfirmRepresents(net, n, k, now);
    LastHopRepresents(net, D.Confirm(n, k, now), k, hop, now);
  }

  lemma LastHopRepresents(net: N.Net, n: D.Node, k: nat, hop: Ip, now: nat)
    requires F.Represents(net, n.me, n.tables.routes)
    ensures F.Represents(net, n.me, D.LastHop(n, k, hop, now).tables.routes)
  {
    F.OthersRefineNothing(net, n.me, n.tables, R.EventLastHop(k, hop), now);
  }

  lemma JoinedRepresents(net: N.Net, n: D.Node, j: nat, k: nat, now: nat)
    requires F.Represents(net, n.me, n.tables.routes) && j < |n.tables.routes| && k < |n.tables.routes|
    ensures var n' := Joined(n, j, k, now);
      F.Represents(net, n.me, n'.tables.routes) && n'.me == n.me && n'.seqNo == n.seqNo
  {
    hide F.Represents, D.Confirm, R.After;
    var n1 := D.Confirm(n, j, now);
    var n2 := D.Confirm(n1, k, now);
    ConfirmRepresents(net, n, j, now);
    ConfirmRepresents(net, n1, k, now);
    LastHopRepresents(net, n2, k, n.tables.routes[j].nextHop, now);
    LastHopRepresents(net, D.LastHop(n2, k, n.tables.routes[j].nextHop, now), j, n.tables.routes[k].nextHop, now);
  }

  /** At the source of its flow a reply is learned and confirmed. */
  lemma SourceRepresents(net: N.Net, n: D.Node, news: R.News, now: nat, junk: nat)
    requires F.Represents(net, n.me, R.Learn(n.tables, n.me, news, now, junk).0.routes)
    ensures var n' := D.RecvRrep(n, news, now, junk);
      F.Represents(net, n.me, n'.tables.routes) && n'.me == n.me && n'.seqNo == n.seqNo
  {
    hide F.Represents, R.Learn, D.Confirm, WithoutTimer, T.FindById;
    var learned := n.(tables := R.Learn(n.tables, n.me, news, now, junk).0,
                      timers := WithoutTimer(n.timers, news.key, TASK_RESEND_RREQ));
    var k := D.RouteAfter(n, news, now, junk);
    SettledRepresents(net, learned, k, n.me, now);
  }

  /** The reply can be learned: the source of its flow is listed, or can be. */
  predicate ReplyListable(n: D.Node, m: N.Msg)
    requires m.Rrep?
  {
    !R.Strands(n.tables, NewsOfReply(m, m.path))
  }

  /** What is learned from a reply, and what the network installs. */
  lemma ReplyLearned(net: N.Net, i: nat, n: D.Node, path: nat, now: nat, junk: nat) returns (net': N.Net)
    requires i < |net.flight| && net.flight[i].Rrep? && net.flight[i].to == n.me
    requires net.flight[i].from != S.NULL_IP
    requires F.Represents(net, n.me, n.tables.routes) && ReplyListable(n, net.flight[i])
    ensures var m := net.flight[i];
      var rest := N.Drop(net, i);
      && net' == F.InNet(rest, n.me, n.tables.routes, NewsOfReply(m, path))
      && (!F.OnOwn(n.tables.routes, m.flow) ==>
            net' == N.Install(rest, n.me, m.flow, N.Entry(m.id, path, (m.hops + 1) % U8, m.from)))
      && F.Represents(net', n.me, R.Learn(n.tables, n.me, NewsOfReply(m, path), now, junk).0.routes)
      && F.OnlyAt(net, net', n.me) && net'.seqNo == net.seqNo && net'.issued == net.issued
      && net'.flight == rest.flight
  {
    hide R.Learn, F.Represents, N.Beats, F.OnOwn, T.Find;
    var m := net.flight[i];
    var rest := N.Drop(net, i);
    FlightRepresents(net, rest.flight, n.me, n.tables.routes);
    F.LearnRefinesInstall(rest, n.me, n.tables, NewsOfReply(m, path), now, junk);
    net' := F.InNet(rest, n.me, n.tables.routes, NewsOfReply(m, path));
  }

  /** A route of the node's own making that the search for the way back ends on is as it was made for a neighbour. */
  lemma NearIsUnused(net: N.Net, i: nat, n: D.Node)
    requires i < |net.flight| && net.flight[i].Rrep? && net.flight[i].to == n.me && N.Inv(net)
    requires F.Represents(net, n.me, n.tables.routes) && net.flight[i].flow.src != n.me
    ensures var m := net.flight[i];
      var rs := n.tables.routes;
      var j := T.FindById(rs, m.flow.src, m.srcId);
      j < |rs| && rs[j].self ==> rs[j].nextHop == S.NULL_IP && rs[j].metric == 1
  {
    hide T.FindById, T.SortedByDst;
    var m := net.flight[i];
    var j := T.FindById(n.tables.routes, m.flow.src, m.srcId);
    F.FindByIdRefines(net, n.me, n.tables.routes, m.flow.src, m.srcId);
    assert m in net.flight && N.MsgOk(net, m);
    OwnIsSensible(net);
  }

  lemma OwnIsSensible(net: N.Net)
    requires N.Inv(net)
    ensures forall o :: o in net.own ==> N.Sensible(net, o.n, o.key, o.entry)
  {
    forall o | o in net.own
      ensures N.Sensible(net, o.n, o.key, o.entry)
    {
      assert N.OwnOk(net, o);
    }
  }

  /** At a relay the handler is the step of the network model, for whatever the searches by id come up with. */
  lemma {:induction false} RelayRefines(net: N.Net, i: nat, n: D.Node, now: nat, junk: nat)
    returns (net': N.Net, rk: N.Hit, sk: N.Hit)
    requires i < |net.flight| && net.flight[i].Rrep? && net.flight[i].to == n.me && N.Inv(net)
    requires net.flight[i].from != S.NULL_IP && n.me != S.NULL_IP && net.flight[i].flow.src != n.me
    requires F.Represents(net, n.me, n.tables.routes) && ReplyListable(n, net.flight[i])
    ensures var m := net.flight[i];
      var (n', out) := Relay(n, m, now, junk);
      && N.RecvRrep(net, net', i, rk, sk)
      && F.Represents(net', n.me, n'.tables.routes) && F.OnlyAt(net, net', n.me)
      && n'.me == n.me && n'.seqNo == n.seqNo && net'.seqNo == net.seqNo
      && net'.flight == N.Drop(net, i).flight + Sent(out)
  {
    hide N.Inv, N.MsgOk, F.Represents, T.FindById, T.Find, R.Learn, R.Moved, F.OnOwn, Joined, Relay, N.RecvRrep;
    hide N.Searched, F.InNet, F.OnlyAt;
    LF.InvMsg(net, i);
    var m := net.flight[i];
    var rest := N.Drop(net, i);
    var rs := n.tables.routes;
    var j := T.FindById(rs, m.flow.src, m.srcId);
    FlightRepresents(net, rest.flight, n.me, rs);
    F.FindByIdRefines(rest, n.me, rs, m.flow.src, m.srcId);
    if j == |rs| {
      RelayNowhere(net, i, n, now, junk);
      rk, sk, net' := N.Miss, N.Miss, rest;
    } else {
      NearIsUnused(net, i, n);
      RelayIsNotOwn(net, i, n);
      RelayOutcome(n, m, j, now, junk);
      var news := NewsOfReply(m, N.Sub32(m.path, rs[j].metric));
      var installed := ReplyLearned(net, i, n, news.metric, now, junk);
      var learned := n.(tables := R.Learn(n.tables, n.me, news, now, junk).0);
      var k := T.FindById(learned.tables.routes, m.flow.dst, m.id);
      F.FindByIdRefines(installed, n.me, learned.tables.routes, m.flow.dst, m.id);
      rk, sk := F.AsHit(rs, j), F.AsHit(learned.tables.routes, k);
      net' := RelayNet(net, i, n.me, rs[j], installed, sk);
      FlightRepresents(installed, net'.flight, n.me, learned.tables.routes);
      AtToo(net, installed, net', n.me);
      if k < |learned.tables.routes| {
        JoinedRepresents(net', learned, R.Moved(rs, m.flow, j), k, now);
      }
    }
  }

  lemma AtToo(net: N.Net, installed: N.Net, net': N.Net, x: Ip)
    requires F.OnlyAt(net, installed, x) && net' == installed.(flight := net'.flight)
    ensures F.OnlyAt(net, net', x)
  {
  }

  /** Without a way back the reply is dropped. */
  lemma RelayNowhere(net: N.Net, i: nat, n: D.Node, now: nat, junk: nat)
    requires i < |net.flight| && net.flight[i].Rrep? && net.flight[i].to == n.me != net.flight[i].flow.src
    requires var m := net.flight[i];
      && T.FindById(n.tables.routes, m.flow.src, m.srcId) == |n.tables.routes|
      && N.Searched(N.Drop(net, i), n.me, m.flow.src, m.srcId, N.Miss)
    ensures Relay(n, net.flight[i], now, junk) == (n, None)
    ensures N.RecvRrep(net, N.Drop(net, i), i, N.Miss, N.Miss) && F.OnlyAt(net, N.Drop(net, i), n.me)
    ensures N.Drop(net, i).flight + Sent(None) == N.Drop(net, i).flight
  {
  }

  /** What the handler does at a relay that has the route at position `j` as the way back. */
  lemma RelayOutcome(n: D.Node, m: N.Msg, j: nat, now: nat, junk: nat)
    requires m.Rrep? && j == T.FindById(n.tables.routes, m.flow.src, m.srcId) < |n.tables.routes|
    requires j != T.Find(n.tables.routes, m.flow)
    ensures var rs := n.tables.routes;
      var news := NewsOfReply(m, N.Sub32(m.path, rs[j].metric));
      var learned := n.(tables := R.Learn(n.tables, n.me, news, now, junk).0);
      var k := T.FindById(learned.tables.routes, m.flow.dst, m.id);
      && R.Moved(rs, m.flow, j) < |learned.tables.routes|
      && Relay(n, m, now, junk)
           == if k == |learned.tables.routes| then (learned, None)
              else (Joined(learned, R.Moved(rs, m.flow, j), k, now),
                    Some(N.Rrep(rs[j].nextHop, n.me, m.flow, m.id, m.srcId, news.hops, m.path, rs[j].metric)))
  {
    hide R.Learn, T.FindById, T.Find, Joined, R.Moved;
    var news := NewsOfReply(m, N.Sub32(m.path, n.tables.routes[j].metric));
    R.LearnMoves(n.tables, n.me, news, now, junk, j);
  }

  /** What the network does there: `r` is the way back. */
  lemma RelayNet(net: N.Net, i: nat, n: Ip, r: T.Route, installed: N.Net, sk: N.Hit) returns (net': N.Net)
    requires i < |net.flight| && net.flight[i].Rrep? && net.flight[i].to == n != net.flight[i].flow.src
    requires F.Stored(N.Drop(net, i), n, r) && (r.self ==> r.metric == 1 && r.nextHop == S.NULL_IP)
    requires var m := net.flight[i];
      var rest := N.Drop(net, i);
      && N.Searched(rest, n, m.flow.src, m.srcId, F.AsHit([r], 0))
      && installed == N.Install(rest, n, m.flow, N.Entry(m.id, N.Sub32(m.path, r.metric), (m.hops + 1) % U8, m.from))
      && N.Searched(installed, n, m.flow.dst, m.id, sk)
    ensures N.RecvRrep(net, net', i, F.AsHit([r], 0), sk)
    ensures var m := net.flight[i];
      var sent := N.Rrep(r.nextHop, n, m.flow, m.id, m.srcId, (m.hops + 1) % U8, m.path, r.metric);
      net' == installed.(flight := installed.flight + Sent(if sk == N.Miss then None else Some(sent)))
  {
    hide N.Searched, N.Accepts, N.Sub32;
    var m := net.flight[i];
    var sent := N.Rrep(r.nextHop, n, m.flow, m.id, m.srcId, (m.hops + 1) % U8, m.path, r.metric);
    net' := installed.(flight := installed.flight + Sent(if sk == N.Miss then None else Some(sent)));
    assert installed.flight + [] == installed.flight;
  }

  lemma RelaySteps(net: N.Net, i: nat, n: D.Node, now: nat, junk: nat) returns (net': N.Net, step: N.Step)
    requires i < |net.flight| && net.flight[i].Rrep? && net.flight[i].to == n.me && N.Inv(net)
    requires net.flight[i].from != S.NULL_IP && n.me != S.NULL_IP && net.flight[i].flow.src != n.me
    requires F.Represents(net, n.me, n.tables.routes) && ReplyListable(n, net.flight[i])
    ensures var m := net.flight[i];
      var (n', out) := Relay(n, m, now, junk);
      && N.NextStep(net, net', step) && step.StepRecvRrep? && step.i == i && !F.OnOwn(n.tables.routes, m.flow)
      && F.Represents(net', n.me, n'.tables.routes) && F.OnlyAt(net, net', n.me)
      && n'.me == n.me && n'.seqNo == n.seqNo && net'.seqNo == net.seqNo
      && net'.flight == N.Drop(net, i).flight + Sent(out)
  {
    hide N.RecvRrep, Relay, F.Represents, F.OnlyAt, F.OnOwn, N.MsgOk, ReplyListable, Sent, N.Inv, N.NextStep;
    LF.InvMsg(net, i);
    RelayIsNotOwn(net, i, n);
    var rk, sk;
    net', rk, sk := RelayRefines(net, i, n, now, junk);
    step := N.StepRecvRrep(i, rk, sk);
    RrepIsStep(net, net', i, rk, sk);
  }

  lemma RrepIsStep(net: N.Net, net': N.Net, i: nat, rk: N.Hit, sk: N.Hit)
    requires N.RecvRrep(net, net', i, rk, sk)
    ensures N.NextStep(net, net', N.StepRecvRrep(i, rk, sk))
  {
    hide N.RecvRrep;
  }

  lemma RelayIsNotOwn(net: N.Net, i: nat, n: D.Node)
    requires i < |net.flight| && net.flight[i].Rrep? && net.flight[i].to == n.me && N.MsgOk(net, net.flight[i])
    requires F.Represents(net, n.me, n.tables.routes) && net.flight[i].flow.src != n.me
    ensures var m := net.flight[i];
      && !F.OnOwn(n.tables.routes, m.flow)
      && (T.FindById(n.tables.routes, m.flow.src, m.srcId) < |n.tables.routes| ==>
            T.FindById(n.tables.routes, m.flow.src, m.srcId) != T.Find(n.tables.routes, m.flow))
  {
    hide T.Find, T.FindById, F.Represents;
    var m := net.flight[i];
    if F.OnOwn(n.tables.routes, m.flow) {
      F.OwnStartsHere(net, n.me, n.tables.routes, m.flow);
    }
  }

  /** So it is at the source of the flow. */
  lemma SourceRefines(net: N.Net, i: nat, n: D.Node, now: nat, junk: nat) returns (net': N.Net, step: N.Step)
    requires i < |net.flight| && net.flight[i].Rrep? && net.flight[i].to == n.me
    requires net.flight[i].from != S.NULL_IP && net.flight[i].flow.src == n.me
    requires F.Represents(net, n.me, n.tables.routes) && ReplyListable(n, net.flight[i])
    ensures var m := net.flight[i];
      var n' := D.RecvRrep(n, NewsOfReply(m, m.path), now, junk);
      && N.NextStep(net, net', step) && !step.StepRemove?
      && (step.StepRecvRrep? <==> !F.OnOwn(n.tables.routes, m.flow))
      && F.Represents(net', n.me, n'.tables.routes) && F.OnlyAt(net, net', n.me)
      && n'.me == n.me && n'.seqNo == n.seqNo && net'.seqNo == net.seqNo
      && net'.flight == N.Drop(net, i).flight
  {
    hide R.Learn, F.Represents, T.Find, D.RecvRrep, F.OnlyAt, ReplyListable, N.Accepts;
    var m := net.flight[i];
    net' := ReplyLearned(net, i, n, m.path, now, junk);
    SourceRepresents(net', n, NewsOfReply(m, m.path), now, junk);
    step := if !F.OnOwn(n.tables.routes, m.flow) then N.StepRecvRrep(i, N.Miss, N.Miss)
            else if net' == N.Drop(net, i) then N.StepLose(i)
            else N.StepOwn(i, N.Radio(0, M.Link(0, 0, 0, 0, 0, []), [], []));
  }

  /** A reply that is received: the handler is the step of the network model, at the source of its flow and at relays.
      It is lost if the sender is not known, and may be, or is remembered apart, if it meets a route of the node's own
      making. */
  lemma RecvRrepRefines(net: N.Net, i: nat, n: D.Node, known: bool, now: nat, junk: nat)
    returns (net': N.Net, step: N.Step)
    requires i < |net.flight| && net.flight[i].Rrep? && net.flight[i].to == n.me && N.Inv(net)
    requires net.flight[i].from != S.NULL_IP && n.me != S.NULL_IP
    requires F.Represents(net, n.me, n.tables.routes) && ReplyListable(n, net.flight[i])
    ensures var m := net.flight[i];
      var (n', out) := RecvRrep(n, m, S.NULL_IP, known, now, junk);
      && N.NextStep(net, net', step) && !step.StepRemove?
      && (step.StepRecvRrep? <==> known && !F.OnOwn(n.tables.routes, m.flow)) && (!known ==> step == N.StepLose(i))
      && F.Represents(net', n.me, n'.tables.routes) && F.OnlyAt(net, net', n.me)
      && n'.me == n.me && n'.seqNo == n.seqNo && net'.seqNo == net.seqNo
      && net'.flight == N.Drop(net, i).flight + Sent(out)
  {
    var m := net.flight[i];
    var heard := Heard(n, m.from, now);
    var rest := N.Drop(net, i);
    assert F.OnlyAt(net, rest, n.me) && rest.flight + [] == rest.flight && ReplyListable(heard, m);
    hide R.Learn, F.Represents, F.OnOwn, Relay, N.Inv, D.RecvRrep, InsertTimer, WithoutTimer, F.OnlyAt, ReplyListable;
    hide N.RecvRrep;
    if !known {
      net', step := rest, N.StepLose(i);
      FlightRepresents(net, rest.flight, n.me, n.tables.routes);
    } else if m.flow.src == n.me {
      net', step := SourceRefines(net, i, heard, now, junk);
    } else {
      net', step := RelaySteps(net, i, heard, now, junk);
    }
  }

  /** A reply that is made is a reply of the network model, on a route of the network or on what was learned on one of
      the node's own making; one that has nowhere to go uses a number up. */
  lemma GenRrepRefines(net: N.Net, n: D.Node, flow: Key, now: nat) returns (net': N.Net, step: Option<N.Step>)
    requires flow.dst == n.me != flow.src && N.SeqNo(net, n.me) + 1 < U32
    requires F.Represents(net, n.me, n.tables.routes) && N.SeqNo(net, n.me) == n.seqNo && N.IssuedInPast(net)
    ensures var (n', out) := GenRrep(n, flow, now);
      && (step == None ==> n' == n && out == None && net' == net)
      && (step.Some? ==> N.NextStep(net, net', step.value) && !step.value.StepRemove?)
      && ((n.me, N.Reverse(flow)) in net.tables && !F.OnOwn(n.tables.routes, N.Reverse(flow)) ==>
            step == Some(N.StepReply(flow)))
      && F.Represents(net', n.me, n'.tables.routes) && F.OnlyAt(net, net', n.me)
      && n'.me == n.me && n'.seqNo == N.SeqNo(net', n.me) && net'.flight == net.flight + Sent(out)
  {
    var k := T.Find(n.tables.routes, N.Reverse(flow));
    if k == |n.tables.routes| {
      F.FoundIsLearned(net, n.me, n.tables.routes, N.Reverse(flow));
      net', step := net, None;
      assert net.flight + [] == net.flight;
    } else {
      var s;
      net', s := RouteReplies(net, n, flow, k);
      step := Some(s);
      hide F.Represents, D.Settled, T.Find, N.NextStep, F.OnlyAt;
      F.SameTables(net, net', n.me, n.tables.routes);
      SettledRepresents(net', n.(seqNo := n.seqNo + 1), k, n.tables.routes[k].key.src, now);
    }
  }

  /** The reply on the route at position `k`. */
  lemma RouteReplies(net: N.Net, n: D.Node, flow: Key, k: nat) returns (net': N.Net, step: N.Step)
    requires flow.dst == n.me != flow.src && N.SeqNo(net, n.me) + 1 < U32
    requires k == T.Find(n.tables.routes, N.Reverse(flow)) < |n.tables.routes|
    requires F.Represents(net, n.me, n.tables.routes) && N.SeqNo(net, n.me) == n.seqNo && N.IssuedInPast(net)
    ensures var r := n.tables.routes[k];
      && N.NextStep(net, net', step) && !step.StepRemove?
      && (!r.self ==> step == N.StepReply(flow))
      && F.OnlyAt(net, net', n.me) && F.Remembers(net, net') && net'.tables == net.tables
      && N.SeqNo(net', n.me) == n.seqNo + 1
      && net'.flight == net.flight + Sent(Some(N.Rrep(r.nextHop, n.me, flow, n.seqNo + 1, r.id, 0, r.metric, r.metric)))
  {
    var r := n.tables.routes[k];
    F.StoredIn(net, n.me, n.tables.routes, r);
    hide F.Represents, T.Find, F.OnlyAt, F.Remembers, N.IssuedInPast;
    if !r.self {
      net', step := N.Reply(net, flow), N.StepReply(flow);
      AnswerAt(net, flow, F.AsEntry(r));
    } else if r.nextHop == S.NULL_IP {
      net', step := N.Skip(net, n.me), N.StepSkip(n.me);
      SkipAt(net, n.me);
      assert net.flight + [] == net.flight;
    } else {
      net', step := N.Answer(net, flow, F.AsEntry(r)), N.StepOwnReply(flow, F.AsEntry(r));
      AnswerAt(net, flow, F.AsEntry(r));
    }
  }

  lemma SkipAt(net: N.Net, n: Ip)
    ensures F.OnlyAt(net, N.Skip(net, n), n) && F.Remembers(net, N.Skip(net, n))
  {
  }

  lemma AnswerAt(net: N.Net, flow: Key, route: N.Entry)
    requires N.IssuedInPast(net)
    ensures var net' := N.Answer(net, flow, route);
      && F.OnlyAt(net, net', flow.dst) && F.Remembers(net, net')
      && N.SeqNo(net', flow.dst) == N.SeqNo(net, flow.dst) + 1
  {
  }

  /** A request that discovery sends is the flood of the network model, with the same id. */
  lemma FloodRefines(net: N.Net, n: D.Node, flow: Key, retries: nat, audience: seq<Ip>, now: nat)
    requires flow.src == n.me && N.SeqNo(net, n.me) == n.seqNo && N.IssuedInPast(net)
    requires F.Represents(net, n.me, n.tables.routes)
    ensures var n' := D.Flood(n, flow, retries, now);
      var net' := N.Originate(net, flow, audience);
      && F.Represents(net', n.me, n'.tables.routes) && F.OnlyAt(net, net', n.me)
      && N.SeqNo(net', n.me) == n'.seqNo && n'.floods == n.floods + [D.Request(flow, n'.seqNo)]
      && net'.flight == net.flight + N.Broadcast(n.me, audience, NET_DIAMETER, flow, n'.seqNo, 0, 0)
  {
    hide InsertTimer, DirectionalTimer, N.Broadcast, T.Find, F.Represents;
    F.SameTables(net, N.Originate(net, flow, audience), n.me, n.tables.routes);
  }

  /** In every reachable state of the network a reply has an id of its own. So only a route of the node's own making,
      whose id is a number of this node, can be met in the place of the flow's own route: the one to the destination,
      where that is a neighbour. */
  lemma OnlyNeighboursMislead(nets: seq<N.Net>, steps: seq<N.Step>, i: nat, m: N.Msg, n: D.Node)
    requires LF.Run(nets, steps) && i < |nets| && m in nets[i].flight && m.Rrep? && m.to == n.me == m.flow.src
    requires F.Represents(nets[i], n.me, n.tables.routes)
    ensures var news := NewsOfReply(m, m.path);
      var j := D.SameId(n, news);
      D.FindsOther(n, news) ==>
        var r := n.tables.routes[j];
        r.self && r.key.src == n.me && r.key.dst == m.flow.dst != n.me
  {
    hide T.Find, T.FindById, N.Inv;
    LF.RunInv(nets, steps, i);
    var j := D.SameId(n, NewsOfReply(m, m.path));
    if j < |n.tables.routes| {
      OwnIds(nets[i], m, n, n.tables.routes[j]);
    }
  }

  lemma OwnIds(net: N.Net, m: N.Msg, n: D.Node, r: T.Route)
    requires N.Inv(net) && m in net.flight && m.Rrep? && F.Represents(net, n.me, n.tables.routes)
    requires r in n.tables.routes && r.key.dst == m.flow.dst && r.id == m.id
    ensures !r.self ==> r.key == m.flow
    ensures m.flow.src != m.flow.dst
  {
    assert N.MsgOk(net, m);
    hide F.HasLearned, F.TableOk;
    assert F.Stored(net, n.me, r);
    if !r.self {
      assert N.EntryOk(net, n.me, r.key);
    }
  }
}
