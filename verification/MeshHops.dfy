/** Previous hops over whole runs of the mesh: once a relay has sent a reply on, its route for the flow remembers the
    node that the reply went to, and that node is told when the route breaks. */
module MeshHops {
  import opened Types
  import opened TaskQueues
  import opened TimerQueues
  import opened Answers
  import opened Meshes
  import opened MeshReplies
  import D = Discovery
  import E = Reports
  import F = Refinement
  import LF = LoopFreedom
  import M = Metrics
  import N = Network
  import Q = Requests
  import R = Routing
  import S = SourceLists
  import T = RouteTables

  /** The route of the flow that was learned with the id. */
  predicate OfFlow(r: T.Route, flow: Key, id: nat) {
    !r.self && r.key == flow && r.id == id
  }

  /** Such routes of the table, if any, remember `to` as their previous hop. */
  ghost predicate Remembers(t: R.Tables, flow: Key, id: nat, to: Ip) {
    forall r :: r in t.routes && OfFlow(r, flow, id) ==> r.lastHop == to
  }

  // ---- What keeps previous hops ----

  /** No event but the learning of the id, or of a previous hop for just that route, gives it another previous hop. */
  lemma EventHops(t: R.Tables, me: Ip, e: R.Event, now: nat, flow: Key, id: nat, to: Ip)
    requires Remembers(t, flow, id, to) && me != flow.src
    requires e.EventLearn? ==> !(e.news.key == flow && e.news.id == id)
    requires e.EventLastHop? && e.k < |t.routes| ==> !OfFlow(t.routes[e.k], flow, id)
    ensures Remembers(R.After(t, me, e, now), flow, id, to)
  {
    hide T.Find, T.FindById, S.Find, S.Insert, T.PlaceFor, R.Kept, R.Stale;
    var rs' := R.After(t, me, e, now).routes;
    forall r' | r' in rs' && OfFlow(r', flow, id)
      ensures r'.lastHop == to
    {
      var i :| 0 <= i < |rs'| && rs'[i] == r';
      match e
      case EventSweep =>
        var r := R.KeptFrom(t.routes, now, r');
      case EventLearn(news, junk) => LearnHops(t, me, news, now, junk, flow, id, to);
      case EventNeighbour(ip, n, junk) =>
        R.InsertedMembers(t.routes, R.NeighbourRoute(me, ip, n, junk), r');
      case _ =>
        R.EventSameKeys(t, me, e, now);
        assert t.routes[i] in t.routes;
    }
  }

  lemma LearnHops(t: R.Tables, me: Ip, news: R.News, now: nat, junk: nat, flow: Key, id: nat, to: Ip)
    requires Remembers(t, flow, id, to) && !(news.key == flow && news.id == id)
    ensures Remembers(R.Learn(t, me, news, now, junk).0, flow, id, to)
  {
    hide T.Find, T.PlaceFor, S.Find, S.Exhausted;
    var created := R.Created(news.key, news.id, junk);
    var rs' := R.Learn(t, me, news, now, junk).0.routes;
    forall r' | r' in rs' && OfFlow(r', flow, id)
      ensures r'.lastHop == to
    {
      R.InsertedMembers(t.routes, created, r');
      R.InsertedMembers(t.routes, R.Learned(created, news, now), r');
    }
  }

  lemma ConfirmHops(n: D.Node, k: nat, now: nat, flow: Key, id: nat, to: Ip)
    requires Remembers(n.tables, flow, id, to) && n.me != flow.src
    ensures Remembers(D.Confirm(n, k, now).tables, flow, id, to) && D.Confirm(n, k, now).me == n.me
  {
    hide R.Confirm, Remembers;
    EventHops(n.tables, n.me, R.EventConfirm(k), now, flow, id, to);
  }

  lemma SettledHops(n: D.Node, k: nat, hop: Ip, now: nat, flow: Key, id: nat, to: Ip)
    requires Remembers(n.tables, flow, id, to) && n.me != flow.src
    requires k < |n.tables.routes| ==> !OfFlow(n.tables.routes[k], flow, id)
    ensures Remembers(D.Settled(n, k, hop, now).tables, flow, id, to)
  {
    hide D.Confirm, R.After, Remembers;
    ConfirmHops(n, k, now, flow, id, to);
    ConfirmUnmoved(n, k, now);
    var n1 := D.Confirm(n, k, now);
    EventHops(n1.tables, n1.me, R.EventLastHop(k, hop), now, flow, id, to);
  }

  lemma JoinedKeepsHops(n: D.Node, j: nat, k: nat, now: nat, flow: Key, id: nat, to: Ip)
    requires j < |n.tables.routes| && k < |n.tables.routes|
    requires Remembers(n.tables, flow, id, to) && n.me != flow.src
    requires !OfFlow(n.tables.routes[j], flow, id) && !OfFlow(n.tables.routes[k], flow, id)
    ensures Remembers(Q.Joined(n, j, k, now).tables, flow, id, to)
  {
    hide D.Confirm, R.After, Remembers;
    var n1 := D.Confirm(n, j, now);
    var n2 := D.Settled(n1, k, n.tables.routes[j].nextHop, now);
    ConfirmHops(n, j, now, flow, id, to);
    ConfirmUnmoved(n, j, now);
    SettledHops(n1, k, n.tables.routes[j].nextHop, now, flow, id, to);
    SettledHop(n1, k, n.tables.routes[j].nextHop, now);
    SettledName(n1, k, n.tables.routes[j].nextHop, now);
    EventHops(n2.tables, n2.me, R.EventLastHop(j, n.tables.routes[k].nextHop), now, flow, id, to);
  }

  lemma SettledName(n: D.Node, k: nat, hop: Ip, now: nat)
    ensures D.Settled(n, k, hop, now).me == n.me
  {
    hide D.Confirm;
    ConfirmName(n, k, now);
  }

  // ---- Ids tell routes apart ----

  /** The id is that of a reply to the flow. */
  ghost predicate OfReply(net: N.Net, flow: Key, id: nat) {
    (flow.dst, id) in net.issued && net.issued[(flow.dst, id)] == N.Issue(flow, false)
  }

  /** The reply concerns the route: it brings the id again, or comes back by the route. */
  predicate Concerns(m: N.Msg, flow: Key, id: nat)
    requires m.Rrep?
  {
    (m.flow == flow && m.id == id) || (N.Reverse(m.flow) == flow && m.srcId == id)
  }

  lemma RreqIsOther(net: N.Net, m: N.Msg, flow: Key, id: nat)
    requires N.MsgOk(net, m) && m.Rreq? && OfReply(net, flow, id)
    ensures !(N.Reverse(m.flow) == flow && m.id == id)
  {
  }

  lemma FoundIsOther(net: N.Net, m: N.Msg, r: T.Route, flow: Key, id: nat)
    requires N.MsgOk(net, m) && m.Rrep? && OfReply(net, flow, id) && !Concerns(m, flow, id)
    ensures r.key.dst == m.flow.dst && r.id == m.id ==> !OfFlow(r, flow, id)
    ensures r.key.dst == m.flow.src && r.id == m.srcId ==> !OfFlow(r, flow, id)
  {
  }

  // ---- Each step keeps them ----

  lemma RreqHops(net: N.Net, n: D.Node, m: N.Msg, radio: Option<N.Radio>, now: nat, junk: nat, flow: Key, id: nat,
                 to: Ip)
    requires m.Rreq? && Travels(m) && n.me != S.NULL_IP && (radio.Some? ==> radio.value.link.Valid())
    requires N.MsgOk(net, m) && OfReply(net, flow, id)
    requires Remembers(n.tables, flow, id, to) && n.me != flow.src
    ensures Remembers(Q.RecvRreq(n, net.routing, m, S.NULL_IP, radio, now, junk).0.tables, flow, id, to)
  {
    RreqIsOther(net, m, flow, id);
    hide Q.RecvRreq, R.Learn, Q.Learnable, Remembers, N.MsgOk;
    Q.RreqOutcome(n, net.routing, m, radio, now, junk);
    var learnable := Q.Learnable(n.me, net.routing, m, radio);
    if learnable.Some? {
      LearnHops(n.tables, n.me, Q.NewsOf(m, learnable.value), now, junk, flow, id, to);
    }
  }

  lemma RelayHops(net: N.Net, n: D.Node, m: N.Msg, now: nat, junk: nat, flow: Key, id: nat, to: Ip)
    requires m.Rrep? && N.MsgOk(net, m) && OfReply(net, flow, id) && !Concerns(m, flow, id)
    requires Remembers(n.tables, flow, id, to) && n.me != flow.src
    ensures Remembers(Q.Relay(n, m, now, junk).0.tables, flow, id, to)
  {
    hide R.Learn, Q.Joined, R.Moved, T.FindById, Remembers, N.MsgOk, T.Find;
    var rs := n.tables.routes;
    var j := T.FindById(rs, m.flow.src, m.srcId);
    if j < |rs| {
      var news := Q.NewsOfReply(m, N.Sub32(m.path, rs[j].metric));
      LearnHops(n.tables, n.me, news, now, junk, flow, id, to);
      var learned := n.(tables := R.Learn(n.tables, n.me, news, now, junk).0);
      var rs' := learned.tables.routes;
      var k := T.FindById(rs', m.flow.dst, m.id);
      R.LearnMoves(n.tables, n.me, news, now, junk, j);
      if k < |rs'| {
        var j' := R.Moved(rs, m.flow, j);
        FoundIsOther(net, m, rs'[k], flow, id);
        BackIsOther(net, n, m, news, now, junk, flow, id);
        JoinedKeepsHops(learned, j', k, now, flow, id, to);
      }
    }
  }

  /** The way back, wherever it is after the route ahead has been learned, is not the flow's own route. */
  lemma BackIsOther(net: N.Net, n: D.Node, m: N.Msg, news: R.News, now: nat, junk: nat, flow: Key, id: nat)
    requires m.Rrep? && N.MsgOk(net, m) && OfReply(net, flow, id) && !Concerns(m, flow, id) && news.key == m.flow
    requires T.FindById(n.tables.routes, m.flow.src, m.srcId) < |n.tables.routes|
    ensures var rs' := R.Learn(n.tables, n.me, news, now, junk).0.routes;
      var j' := R.Moved(n.tables.routes, m.flow, T.FindById(n.tables.routes, m.flow.src, m.srcId));
      j' < |rs'| && !OfFlow(rs'[j'], flow, id)
  {
    var j := T.FindById(n.tables.routes, m.flow.src, m.srcId);
    FoundIsOther(net, m, n.tables.routes[j], flow, id);
    assert m.flow.src != m.flow.dst;
    hide R.Learn, R.Moved, T.FindById, N.MsgOk, T.Find, OfReply;
    LearnKeepsFound(n.tables, n.me, news, now, junk, m.flow.src, m.srcId);
  }

  lemma SourceHops(net: N.Net, n: D.Node, m: N.Msg, now: nat, junk: nat, flow: Key, id: nat, to: Ip)
    requires m.Rrep? && N.MsgOk(net, m) && OfReply(net, flow, id) && m.flow.src == n.me
    requires Remembers(n.tables, flow, id, to) && n.me != flow.src
    ensures Remembers(D.RecvRrep(n, Q.NewsOfReply(m, m.path), now, junk).tables, flow, id, to)
  {
    hide R.Learn, D.Settled, T.FindById, Remembers, N.MsgOk, WithoutTimer;
    var news := Q.NewsOfReply(m, m.path);
    LearnHops(n.tables, n.me, news, now, junk, flow, id, to);
    var learned := n.(tables := R.Learn(n.tables, n.me, news, now, junk).0,
                      timers := WithoutTimer(n.timers, news.key, TASK_RESEND_RREQ));
    var k := D.RouteAfter(n, news, now, junk);
    if k < |learned.tables.routes| {
      OwnFlowIsOther(net, m, learned.tables.routes[k], flow, id);
      SettledHops(learned, k, n.me, now, flow, id, to);
    }
  }

  lemma OwnFlowIsOther(net: N.Net, m: N.Msg, r: T.Route, flow: Key, id: nat)
    requires N.MsgOk(net, m) && m.Rrep? && OfReply(net, flow, id) && m.flow != flow
    ensures r.key.dst == m.flow.dst && r.id == m.id ==> !OfFlow(r, flow, id)
  {
  }

  lemma RrepHops(net: N.Net, n: D.Node, m: N.Msg, known: bool, now: nat, junk: nat, flow: Key, id: nat, to: Ip)
    requires m.Rrep? && N.MsgOk(net, m) && OfReply(net, flow, id) && n.me != S.NULL_IP
    requires known ==> !Concerns(m, flow, id)
    requires Remembers(n.tables, flow, id, to) && n.me != flow.src
    ensures Remembers(Q.RecvRrep(n, m, S.NULL_IP, known, now, junk).0.tables, flow, id, to)
  {
    hide Q.Relay, D.RecvRrep, Remembers, N.MsgOk, InsertTimer, WithoutTimer, OfReply, Concerns;
    var heard := Q.Heard(n, m.from, now);
    if known && m.flow.src == n.me {
      SourceHops(net, heard, m, now, junk, flow, id, to);
    } else if known {
      RelayHops(net, heard, m, now, junk, flow, id, to);
    }
  }

  lemma ServeHops(n: D.Node, now: nat, flow: Key, id: nat, to: Ip)
    requires Remembers(n.tables, flow, id, to) && n.me != flow.src && DueHere(n)
    ensures Remembers(Q.Serve(n, now).0.tables, flow, id, to)
  {
    hide D.Settled, D.Serve, Served, Remembers, T.Find, DueHere;
    D.ServeLeaves(n, now);
    if Q.RepliesNext(n) {
      NextIsDue(n);
      var rest := n.(tasks := RemoveAt(n.tasks, Served(n.tasks)), seqNo := n.seqNo + 1);
      var k := T.Find(n.tables.routes, N.Reverse(n.tasks[Served(n.tasks)].FlowKey()));
      if k < |n.tables.routes| {
        SettledHops(rest, k, n.tables.routes[k].key.src, now, flow, id, to);
      }
    }
  }

  /** The step brings node `x` a reply that concerns the route. */
  predicate Touches(mesh: Mesh, s: Step, x: Ip, flow: Key, id: nat)
    requires Enabled(mesh, s)
  {
    s.StepHear? && var m := mesh.flight[s.i]; m.to == x && m.Rrep? && s.radio.Some? && Concerns(m, flow, id)
  }

  lemma StepHops(mesh: Mesh, net: N.Net, s: Step, now: nat, x: Ip, flow: Key, id: nat, to: Ip)
    requires Stands(mesh, net) && N.Inv(net) && Enabled(mesh, s) && x in mesh.nodes && DueHere(mesh.nodes[x])
    requires OfReply(net, flow, id) && x != flow.src && !Touches(mesh, s, x, flow, id)
    requires Remembers(mesh.nodes[x].tables, flow, id, to)
    ensures x in Next(mesh, s, now).nodes && Remembers(Next(mesh, s, now).nodes[x].tables, flow, id, to)
  {
    var n := mesh.nodes[x];
    assert n.me == x != S.NULL_IP;
    match s
    case StepHear(i, radio, audience, junk) =>
      var m := mesh.flight[i];
      assert m in net.flight && N.MsgOk(net, m) && Travels(m);
      hide N.Inv, Stands, Q.RecvRreq, Q.RecvRrep, Remembers, N.MsgOk, OfReply, Concerns, DueHere, N.Broadcast;
      if m.to == x && m.Rreq? {
        RreqHops(net, n, m, radio, now, junk, flow, id, to);
      } else if m.to == x {
        RrepHops(net, n, m, radio.Some?, now, junk, flow, id, to);
      }
    case StepServe(_, _) =>
      hide N.Inv, Stands, Q.Serve, Remembers;
      ServeHops(n, now, flow, id, to);
    case StepLocal(y, local, _) =>
      hide N.Inv, Stands, D.After, R.After, Remembers, D.Enabled;
      if y == x {
        var e := LocalEvent(n, local, now);
        EventHops(n.tables, x, e, now, flow, id, to);
      }
    case StepLose(_) =>
  }

  // ---- Over whole runs ----

  lemma StepIssues(net: N.Net, net': N.Net, step: N.Step, p: (Ip, nat))
    requires N.NextStep(net, net', step) && N.Inv(net) && p in net.issued
    ensures p in net'.issued && net'.issued[p] == net.issued[p]
  {
    assert (p.0, p.1) in net.issued && p.1 <= N.SeqNo(net, p.0);
    hide N.Inv, N.FoundById, N.PathMetric, N.Broadcast;
  }

  /** What an id was issued for is never forgotten. */
  lemma {:induction false} IssuesStay(nets: seq<N.Net>, steps: seq<N.Step>, a: nat, b: nat, p: (Ip, nat))
    requires LF.Run(nets, steps) && a <= b < |nets| && p in nets[a].issued
    ensures p in nets[b].issued && nets[b].issued[p] == nets[a].issued[p]
    decreases b
  {
    if a < b {
      hide LF.Run;
      IssuesStay(nets, steps, a, b - 1, p);
      IssuesOn(nets, steps, b - 1, p);
    }
  }

  lemma IssuesOn(nets: seq<N.Net>, steps: seq<N.Step>, b: nat, p: (Ip, nat))
    requires LF.Run(nets, steps) && b + 1 < |nets| && p in nets[b].issued
    ensures p in nets[b + 1].issued && nets[b + 1].issued[p] == nets[b].issued[p]
  {
    LF.RunInv(nets, steps, b);
    hide N.Inv, N.NextStep, N.Init, LF.SafeToRemove;
    assert LF.GuardedStep(nets[b], nets[b + 1], steps[b]);
    StepIssues(nets[b], nets[b + 1], steps[b], p);
  }

  /** The step is that of a relay which sends the reply to `to`, and leads to a route that was learned. */
  ghost predicate RelaysTo(mesh: Mesh, s: Step, now: nat, x: Ip, flow: Key, id: nat, to: Ip)
    requires Enabled(mesh, s)
  {
    && s.StepHear? && s.radio.Some? && x in mesh.nodes
    && var m := mesh.flight[s.i];
       && m.Rrep? && m.to == x && m.flow == flow && m.id == id && flow.src != x
       && var (n', out) := Q.RecvRrep(mesh.nodes[x], m, S.NULL_IP, true, now, s.junk);
          var rs', k := n'.tables.routes, T.FindById(n'.tables.routes, flow.dst, id);
          out.Some? && out.value.to == to && k < |rs'| && !rs'[k].self
  }

  /** A route that was learned and is found by the id of a reply is the one of the reply's flow, and the only one. */
  lemma FoundIsFlow(net: N.Net, n: Ip, rs: seq<T.Route>, k: nat, flow: Key, id: nat, r: T.Route)
    requires F.Represents(net, n, rs) && N.Inv(net) && OfReply(net, flow, id)
    requires k < |rs| && rs[k].key.dst == flow.dst && rs[k].id == id && !rs[k].self
    requires r in rs && OfFlow(r, flow, id)
    ensures r == rs[k]
  {
    F.StoredIn(net, n, rs, rs[k]);
    assert N.EntryOk(net, n, rs[k].key);
    var i :| 0 <= i < |rs| && rs[i] == r;
    hide N.Inv, T.SortedByDst;
  }

  lemma RelayStarts(mesh: Mesh, net': N.Net, s: Step, now: nat, x: Ip, flow: Key, id: nat, to: Ip)
    requires Enabled(mesh, s) && RelaysTo(mesh, s, now, x, flow, id, to) && mesh.nodes[x].me == x != S.NULL_IP
    requires Stands(Next(mesh, s, now), net') && N.Inv(net') && OfReply(net', flow, id) && flow.src != flow.dst
    ensures x in Next(mesh, s, now).nodes && Remembers(Next(mesh, s, now).nodes[x].tables, flow, id, to)
  {
    var m := mesh.flight[s.i];
    var n := mesh.nodes[x];
    var n' := Q.RecvRrep(n, m, S.NULL_IP, true, now, s.junk).0;
    assert Next(mesh, s, now).nodes[x] == n';
    assert F.Represents(net', x, n'.tables.routes);
    hide Stands, N.Inv, OfReply, T.FindById, F.Represents, Next, Q.Heard;
    var heard := Q.Heard(n, m.from, now);
    HeardName(n, m.from, now);
    RelayRemembers(heard, m, now, s.junk);
    hide Q.Relay;
    var k := T.FindById(n'.tables.routes, flow.dst, id);
    forall r | r in n'.tables.routes && OfFlow(r, flow, id)
      ensures r.lastHop == to
    {
      FoundIsFlow(net', x, n'.tables.routes, k, flow, id, r);
    }
  }

  lemma HeardName(n: D.Node, ip: Ip, now: nat)
    ensures Q.Heard(n, ip, now).me == n.me
  {
  }

  /** Since a relay sent a reply on, its route of the flow, as long as it is the one of that reply, remembers where the
      reply went, until a reply concerns the route again. */
  lemma {:induction false} HopsStay(ms: seq<Mesh>, ss: seq<Step>, clock: seq<nat>, nets: seq<N.Net>, steps: seq<N.Step>,
                                    at: seq<nat>, i: nat, j: nat, x: Ip, flow: Key, id: nat, to: Ip)
    requires Run(ms, ss, clock) && i < j <= |ss|
    requires LF.Run(nets, steps) && |at| == |ms| && (forall a, b :: 0 <= a < b < |ms| ==> at[a] <= at[b])
    requires forall a :: 0 <= a < |ms| ==> at[a] < |nets| && Stands(ms[a], nets[at[a]])
    requires Enabled(ms[i], ss[i]) && RelaysTo(ms[i], ss[i], clock[i], x, flow, id, to)
    requires forall k :: i < k < j ==> Enabled(ms[k], ss[k]) && !Touches(ms[k], ss[k], x, flow, id)
    ensures x in ms[j].nodes && Remembers(ms[j].nodes[x].tables, flow, id, to)
    decreases j
  {
    hide Start, Next, Ordinary, Stands, LF.Run, Remembers, N.Inv, RelaysTo, Touches, DueHere;
    RelayIssued(ms[i], nets[at[i]], ss[i], clock[i], nets, steps, at[i], x, flow, id, to);
    StepOf(ms, ss, clock, j - 1);
    RunDue(ms, ss, clock, j - 1);
    if j > i + 1 {
      HopsStay(ms, ss, clock, nets, steps, at, i, j - 1, x, flow, id, to);
      LF.RunInv(nets, steps, at[j - 1]);
      IssuesStay(nets, steps, at[i], at[j - 1], (flow.dst, id));
      RelayIsElsewhere(ms[i], ss[i], clock[i], x, flow, id, to);
      StepHops(ms[j - 1], nets[at[j - 1]], ss[j - 1], clock[j - 1], x, flow, id, to);
    } else {
      LF.RunInv(nets, steps, at[j]);
      IssuesStay(nets, steps, at[i], at[j], (flow.dst, id));
      RelayIsElsewhere(ms[i], ss[i], clock[i], x, flow, id, to);
      RelayStarts(ms[i], nets[at[j]], ss[i], clock[i], x, flow, id, to);
    }
  }

  lemma RelayIsElsewhere(mesh: Mesh, s: Step, now: nat, x: Ip, flow: Key, id: nat, to: Ip)
    requires Enabled(mesh, s) && RelaysTo(mesh, s, now, x, flow, id, to)
    ensures x != flow.src && x in mesh.nodes
  {
  }

  /** The id of a reply in flight was issued for its flow. */
  lemma RelayIssued(mesh: Mesh, net: N.Net, s: Step, now: nat, nets: seq<N.Net>, steps: seq<N.Step>, a: nat, x: Ip,
                    flow: Key, id: nat, to: Ip)
    requires Enabled(mesh, s) && RelaysTo(mesh, s, now, x, flow, id, to) && Stands(mesh, net)
    requires LF.Run(nets, steps) && a < |nets| && nets[a] == net
    ensures OfReply(net, flow, id) && flow.src != flow.dst
  {
    LF.RunInv(nets, steps, a);
    var m := mesh.flight[s.i];
    assert m in net.flight && N.MsgOk(net, m);
  }

  /** So the node that a reply was sent on to is the one that is told when the route breaks at the relay, and the one
      that a report which reaches the relay goes on to. */
  lemma ReportsGoBack(ms: seq<Mesh>, ss: seq<Step>, clock: seq<nat>, i: nat, j: nat, x: Ip, flow: Key, id: nat, to: Ip,
                      k: nat, next: Ip)
    requires Run(ms, ss, clock) && Prompt(ms, clock) && i < j <= |ss|
    requires Enabled(ms[i], ss[i]) && RelaysTo(ms[i], ss[i], clock[i], x, flow, id, to)
    requires forall a :: i < a < j ==> Enabled(ms[a], ss[a]) && !Touches(ms[a], ss[a], x, flow, id)
    requires x in ms[j].nodes && k < |ms[j].nodes[x].tables.routes| && flow.src != S.NULL_IP
    requires var r := ms[j].nodes[x].tables.routes[k]; OfFlow(r, flow, id) && !r.neigh && E.Leads(r, next)
    ensures var n := ms[j].nodes[x];
      var rs := n.tables.routes;
      && R.Rerr(to, flow.dst, id) in R.Reports(rs, next, x, n.gateway)
      && (E.Found(rs, k, flow.dst, id) ==>
            R.Forwarded(rs, flow.dst, id, next, x, n.gateway) == Some(R.Rerr(to, flow.dst, id)))
  {
    assert |ms| == |ss| + 1;
    hide Run, Prompt, LF.Run, Stands, Touches, RelaysTo, Enabled, Remembers;
    RelayIsRemembered(ms, ss, clock, i, j, x, flow, id, to);
    ToldOf(ms[j].nodes[x].tables, k, x, ms[j].nodes[x].gateway, flow, id, to, next);
  }

  lemma RelayIsRemembered(ms: seq<Mesh>, ss: seq<Step>, clock: seq<nat>, i: nat, j: nat, x: Ip, flow: Key, id: nat,
                          to: Ip)
    requires Run(ms, ss, clock) && Prompt(ms, clock) && i < j <= |ss|
    requires Enabled(ms[i], ss[i]) && RelaysTo(ms[i], ss[i], clock[i], x, flow, id, to)
    requires forall a :: i < a < j ==> Enabled(ms[a], ss[a]) && !Touches(ms[a], ss[a], x, flow, id)
    ensures x in ms[j].nodes && x != flow.src && Remembers(ms[j].nodes[x].tables, flow, id, to)
  {
    var nets, steps, at := RunRefines(ms, ss, clock);
    hide Run, Prompt, LF.Run, Stands, Touches, Remembers;
    HopsStay(ms, ss, clock, nets, steps, at, i, j, x, flow, id, to);
  }

  /** What a table that remembers does with its reports. */
  lemma ToldOf(t: R.Tables, k: nat, x: Ip, gateway: bool, flow: Key, id: nat, to: Ip, next: Ip)
    requires Remembers(t, flow, id, to) && x != flow.src && flow.src != S.NULL_IP && k < |t.routes|
    requires OfFlow(t.routes[k], flow, id) && !t.routes[k].neigh && E.Leads(t.routes[k], next)
    ensures R.Rerr(to, flow.dst, id) in R.Reports(t.routes, next, x, gateway)
    ensures E.Found(t.routes, k, flow.dst, id) ==>
      R.Forwarded(t.routes, flow.dst, id, next, x, gateway) == Some(R.Rerr(to, flow.dst, id))
  {
    hide R.Reports, R.Forwarded;
    assert t.routes[k] in t.routes;
    E.BreakExactly(t.routes, next, x, gateway, 0);
    E.ForwardsExactly(t.routes, flow.dst, id, next, x, gateway, R.Rerr(to, flow.dst, id));
  }
}
