/** Replies over whole runs of the mesh: every request that is answered has a reply to come until it is made, every
    reply that is made answers a request, and the routes that a reply confirms remember the way it went. */
module MeshReplies {
  import opened Types
  import opened TaskQueues
  import opened TimerQueues
  import opened Answers
  import opened Meshes
  import C = Clock
  import D = Discovery
  import E = Reports
  import F = Refinement
  import LF = LoopFreedom
  import M = Metrics
  import N = Network
  import Q = Requests
  import R = Routing
  import S = SourceLists
  import T = RouteTables

  // ---- Replies to come ----

  /** From the step that answers a request until the reply is made, there is a task or a timer for it. */
  lemma {:induction false} AnsweredUntilReplied(ms: seq<Mesh>, ss: seq<Step>, clock: seq<nat>, i: nat, j: nat, x: Ip,
                                                flow: Key)
    requires Run(ms, ss, clock) && i < j <= |ss|
    requires Enabled(ms[i], ss[i]) && AnswersAt(ms[i], ss[i], clock[i], x, flow)
    requires forall k :: i < k < j ==> !RepliesAt(ms[k], ss[k], x, flow)
    ensures x in ms[j].nodes && Pending(ms[j].nodes[x], flow) > 0
    decreases j
  {
    hide Start, Next, Enabled, Ordinary, RepliesAt;
    if j > i + 1 {
      AnsweredUntilReplied(ms, ss, clock, i, j - 1, x, flow);
      StepDue(ms[j - 1], ss[j - 1], clock[j - 1], x, flow);
    } else {
      StepDue(ms[i], ss[i], clock[i], x, flow);
      NotBoth(ms[i], ss[i], clock[i], x, flow);
    }
  }

  lemma NotBoth(mesh: Mesh, s: Step, now: nat, x: Ip, flow: Key)
    requires Enabled(mesh, s) && AnswersAt(mesh, s, now, x, flow)
    ensures !RepliesAt(mesh, s, x, flow) && x in mesh.nodes
    ensures Pending(mesh.nodes[x], flow) >= Count(mesh.nodes[x].timers, flow, TASK_SEND_RREP)
  {
  }

  /** A reply that is due was asked for. */
  lemma {:induction false} DueWasAskedFor(ms: seq<Mesh>, ss: seq<Step>, clock: seq<nat>, j: nat, x: Ip, flow: Key)
    returns (i: nat)
    requires Run(ms, ss, clock) && j < |ms| && x in ms[j].nodes && Pending(ms[j].nodes[x], flow) > 0
    ensures i < j && Enabled(ms[i], ss[i]) && AnswersAt(ms[i], ss[i], clock[i], x, flow)
  {
    NothingDue(ms, ss, clock, x, flow);
    if j > 0 {
      var mesh, s, now := ms[j - 1], ss[j - 1], clock[j - 1];
      hide Start, Next, Ordinary, Pending, AnswersAt, RepliesAt;
      SameNodes(mesh, s, now, x);
      StepDue(mesh, s, now, x, flow);
      hide Enabled;
      if AnswersAt(mesh, s, now, x, flow) {
        i := j - 1;
      } else {
        i := DueWasAskedFor(ms, ss, clock, j - 1, x, flow);
      }
    }
  }

  lemma NothingDue(ms: seq<Mesh>, ss: seq<Step>, clock: seq<nat>, x: Ip, flow: Key)
    requires Run(ms, ss, clock)
    ensures x in ms[0].nodes ==> Pending(ms[0].nodes[x], flow) == 0
  {
  }

  /** So every reply that is made answers a request. */
  lemma RepliesAnswer(ms: seq<Mesh>, ss: seq<Step>, clock: seq<nat>, j: nat, x: Ip, flow: Key) returns (i: nat)
    requires Run(ms, ss, clock) && j < |ss| && RepliesAt(ms[j], ss[j], x, flow)
    ensures i < j && Enabled(ms[i], ss[i]) && AnswersAt(ms[i], ss[i], clock[i], x, flow)
  {
    CountPositive(ms[j].nodes[x].tasks, flow, TASK_SEND_RREP);
    hide Run, Count, Served;
    i := DueWasAskedFor(ms, ss, clock, j, x, flow);
  }

  // ---- Replies are sent ----

  /** The table has a route with the key that lives until `until`, and no route was given more than a packet gives. */
  ghost predicate Lives(t: R.Tables, key: Key, until: nat, now: nat) {
    exists r :: r in t.routes && Lasts(r, key, until, now)
  }

  predicate Lasts(r: T.Route, key: Key, until: nat, now: nat) {
    r.key == key && (r.self || until <= r.lifetime <= now + ACTIVE_ROUTE_TIMEOUT)
  }

  /** Nothing that happens within the delete period ends its life. */
  lemma EventLives(t: R.Tables, me: Ip, e: R.Event, now: nat, key: Key, until: nat)
    requires Lives(t, key, until, now) && now <= until <= now + DELETE_PERIOD
    ensures Lives(R.After(t, me, e, now), key, until, now)
  {
    hide T.Find, T.FindById, S.Find, S.Insert, T.PlaceFor, C.TimeBefore, R.Kept;
    var r :| r in t.routes && Lasts(r, key, until, now);
    var i :| 0 <= i < |t.routes| && t.routes[i] == r;
    var rs' := R.After(t, me, e, now).routes;
    match e
    case EventSweep =>
      C.TimeBeforeIsOrder(if r.self then now else r.lifetime, now);
      R.KeptHas(t.routes, now, r);
      assert r in rs';
    case EventLearn(news, junk) =>
      R.LearnMoves(t, me, news, now, junk, i);
      LearnLives(t, me, news, now, junk, i, key, until);
    case EventNeighbour(ip, id, junk) =>
      R.InsertedMembers(t.routes, R.NeighbourRoute(me, ip, id, junk), r);
    case _ =>
      R.EventSameKeys(t, me, e, now);
      assert Lasts(rs'[i], key, until, now);
  }

  lemma LearnLives(t: R.Tables, me: Ip, news: R.News, now: nat, junk: nat, i: nat, key: Key, until: nat)
    requires i < |t.routes| && Lasts(t.routes[i], key, until, now) && now <= until <= now + DELETE_PERIOD
    ensures Lives(R.Learn(t, me, news, now, junk).0, key, until, now)
  {
    hide T.Find, T.PlaceFor, S.Find, S.Insert;
    R.LearnMoves(t, me, news, now, junk, i);
    var r' := R.Learn(t, me, news, now, junk).0.routes[R.Moved(t.routes, news.key, i)];
    assert Lasts(r', key, until, now);
  }

  lemma ConfirmLives(n: D.Node, k: nat, now: nat, key: Key, until: nat)
    requires Lives(n.tables, key, until, now) && now <= until <= now + DELETE_PERIOD
    ensures Lives(D.Confirm(n, k, now).tables, key, until, now)
  {
    hide R.Confirm, Lives;
    EventLives(n.tables, n.me, R.EventConfirm(k), now, key, until);
  }

  lemma LastHopLives(n: D.Node, k: nat, hop: Ip, now: nat, key: Key, until: nat)
    requires Lives(n.tables, key, until, now) && now <= until <= now + DELETE_PERIOD
    ensures Lives(D.LastHop(n, k, hop, now).tables, key, until, now)
  {
    hide R.After, Lives;
    EventLives(n.tables, n.me, R.EventLastHop(k, hop), now, key, until);
  }

  lemma SettledLives(n: D.Node, k: nat, hop: Ip, now: nat, key: Key, until: nat)
    requires Lives(n.tables, key, until, now) && now <= until <= now + DELETE_PERIOD
    ensures Lives(D.Settled(n, k, hop, now).tables, key, until, now)
  {
    hide D.Confirm, D.LastHop, Lives;
    ConfirmLives(n, k, now, key, until);
    LastHopLives(D.Confirm(n, k, now), k, hop, now, key, until);
  }

  lemma JoinedLives(n: D.Node, j: nat, k: nat, now: nat, key: Key, until: nat)
    requires j < |n.tables.routes| && k < |n.tables.routes|
    requires Lives(n.tables, key, until, now) && now <= until <= now + DELETE_PERIOD
    ensures Lives(Q.Joined(n, j, k, now).tables, key, until, now)
  {
    hide D.Confirm, D.LastHop, Lives;
    var n1 := D.Confirm(n, j, now);
    var n2 := D.Confirm(n1, k, now);
    ConfirmLives(n, j, now, key, until);
    ConfirmLives(n1, k, now, key, until);
    LastHopLives(n2, k, n.tables.routes[j].nextHop, now, key, until);
    LastHopLives(D.LastHop(n2, k, n.tables.routes[j].nextHop, now), j, n.tables.routes[k].nextHop, now, key, until);
  }

  lemma NewsLives(n: D.Node, news: R.News, now: nat, junk: nat, key: Key, until: nat)
    requires Lives(n.tables, key, until, now) && now <= until <= now + DELETE_PERIOD
    ensures Lives(R.Learn(n.tables, n.me, news, now, junk).0, key, until, now)
  {
    hide R.Learn, Lives;
    EventLives(n.tables, n.me, R.EventLearn(news, junk), now, key, until);
  }

  lemma RreqLives(n: D.Node, routing: M.Routing, m: N.Msg, radio: Option<N.Radio>, now: nat, junk: nat, key: Key,
                  until: nat)
    requires m.Rreq? && m.flow.dst != S.NULL_IP && n.me != S.NULL_IP && (radio.Some? ==> radio.value.link.Valid())
    requires Lives(n.tables, key, until, now) && now <= until <= now + DELETE_PERIOD
    ensures Lives(Q.RecvRreq(n, routing, m, S.NULL_IP, radio, now, junk).0.tables, key, until, now)
  {
    hide Q.RecvRreq, R.Learn, Q.Learnable, Lives;
    Q.RreqOutcome(n, routing, m, radio, now, junk);
    var learnable := Q.Learnable(n.me, routing, m, radio);
    if learnable.Some? {
      NewsLives(n, Q.NewsOf(m, learnable.value), now, junk, key, until);
    }
  }

  lemma RelayLives(n: D.Node, m: N.Msg, now: nat, junk: nat, key: Key, until: nat)
    requires m.Rrep? && Lives(n.tables, key, until, now) && now <= until <= now + DELETE_PERIOD
    ensures Lives(Q.Relay(n, m, now, junk).0.tables, key, until, now)
  {
    hide R.Learn, Q.Joined, R.Moved, T.FindById, Lives;
    var rs := n.tables.routes;
    var j := T.FindById(rs, m.flow.src, m.srcId);
    if j < |rs| {
      var news := Q.NewsOfReply(m, N.Sub32(m.path, rs[j].metric));
      NewsLives(n, news, now, junk, key, until);
      var learned := n.(tables := R.Learn(n.tables, n.me, news, now, junk).0);
      var k := T.FindById(learned.tables.routes, m.flow.dst, m.id);
      R.LearnMoves(n.tables, n.me, news, now, junk, j);
      if k < |learned.tables.routes| {
        JoinedLives(learned, R.Moved(rs, m.flow, j), k, now, key, until);
      }
    }
  }

  lemma RrepLives(n: D.Node, m: N.Msg, known: bool, now: nat, junk: nat, key: Key, until: nat)
    requires m.Rrep? && Lives(n.tables, key, until, now) && now <= until <= now + DELETE_PERIOD
    ensures Lives(Q.RecvRrep(n, m, S.NULL_IP, known, now, junk).0.tables, key, until, now)
  {
    hide Q.Relay, R.Learn, D.Settled, Lives, InsertTimer, WithoutTimer, T.FindById;
    var heard := Q.Heard(n, m.from, now);
    var news := Q.NewsOfReply(m, m.path);
    RelayLives(heard, m, now, junk, key, until);
    NewsLives(heard, news, now, junk, key, until);
    var learned := heard.(tables := R.Learn(n.tables, n.me, news, now, junk).0,
                          timers := WithoutTimer(heard.timers, news.key, TASK_RESEND_RREQ));
    SettledLives(learned, D.RouteAfter(heard, news, now, junk), n.me, now, key, until);
  }

  lemma ServeLives(n: D.Node, now: nat, key: Key, until: nat)
    requires Lives(n.tables, key, until, now) && now <= until <= now + DELETE_PERIOD
    ensures Lives(Q.Serve(n, now).0.tables, key, until, now)
  {
    hide D.Settled, D.Serve, Served, Lives, T.Find;
    D.ServeLeaves(n, now);
    if Q.RepliesNext(n) {
      var rest := n.(tasks := RemoveAt(n.tasks, Served(n.tasks)), seqNo := n.seqNo + 1);
      var k := T.Find(n.tables.routes, N.Reverse(n.tasks[Served(n.tasks)].FlowKey()));
      if k < |n.tables.routes| {
        SettledLives(rest, k, n.tables.routes[k].key.src, now, key, until);
      }
    }
  }

  lemma StepLives(mesh: Mesh, s: Step, now: nat, x: Ip, key: Key, until: nat)
    requires Enabled(mesh, s) && x in mesh.nodes && mesh.nodes[x].me == x != S.NULL_IP
    requires forall m :: m in mesh.flight ==> Travels(m)
    requires Lives(mesh.nodes[x].tables, key, until, now) && now <= until <= now + DELETE_PERIOD
    ensures x in Next(mesh, s, now).nodes && Lives(Next(mesh, s, now).nodes[x].tables, key, until, now)
  {
    hide Q.RecvRreq, Q.RecvRrep, Q.Serve, D.After, R.After, D.Enabled, N.Broadcast, Lives;
    var n := mesh.nodes[x];
    match s
    case StepHear(i, radio, audience, junk) =>
      var m := mesh.flight[i];
      assert Travels(m);
      if m.to == x && m.Rreq? {
        RreqLives(n, mesh.routing, m, radio, now, junk, key, until);
      } else if m.to == x {
        RrepLives(n, m, radio.Some?, now, junk, key, until);
      }
    case StepServe(_, _) => ServeLives(n, now, key, until);
    case StepLocal(y, local, _) =>
      if y == x {
        var e := LocalEvent(n, local, now);
        EventLives(n.tables, x, e, now, key, until);
      }
    case StepLose(_) =>
  }

  /** The messages of a run travel, and its nodes have addresses of their own. */
  lemma {:induction false} RunTravels(ms: seq<Mesh>, ss: seq<Step>, clock: seq<nat>, i: nat)
    requires Run(ms, ss, clock) && i < |ms|
    ensures forall m :: m in ms[i].flight ==> Travels(m)
  {
    if i > 0 {
      hide Start, Next, Enabled, Ordinary, Run, Travels;
      RunTravels(ms, ss, clock, i - 1);
      RunDue(ms, ss, clock, i - 1);
      StepOf(ms, ss, clock, i - 1);
      StepTravels(ms[i - 1], ss[i - 1], clock[i - 1]);
    }
  }

  lemma StepOf(ms: seq<Mesh>, ss: seq<Step>, clock: seq<nat>, i: nat)
    requires Run(ms, ss, clock) && i < |ss|
    ensures |ms| == |ss| + 1 == |clock|
    ensures Enabled(ms[i], ss[i]) && Ordinary(ms[i], ss[i], clock[i]) && ms[i + 1] == Next(ms[i], ss[i], clock[i])
    ensures clock[i] <= clock[i + 1]
  {
  }

  lemma StepTravels(mesh: Mesh, s: Step, now: nat)
    requires Enabled(mesh, s) && Ordinary(mesh, s, now)
    requires forall m :: m in mesh.flight ==> Travels(m)
    requires forall x: Ip :: x in mesh.nodes ==> x != S.NULL_IP && mesh.nodes[x].me == x && DueHere(mesh.nodes[x])
    ensures forall m :: m in Next(mesh, s, now).flight ==> Travels(m)
  {
    hide Q.RecvRreq, Q.RecvRrep, Q.GenRrep, D.Serve, D.After, D.Enabled, FloodsOwn, Flooded, DueHere, Q.Sent, Travels;
    hide Served;
    match s
    case StepHear(i, radio, audience, junk) =>
      var m := mesh.flight[i];
      assert Travels(m);
      if m.to in mesh.nodes && m.Rreq? {
        var out := Q.RecvRreq(mesh.nodes[m.to], mesh.routing, m, S.NULL_IP, radio, now, junk).1;
        PassedTravels(m, out, audience);
        FlightTravels(mesh, i, Passed(m, out, audience));
      } else if m.to in mesh.nodes {
        RrepTravels(mesh.nodes[m.to], m, radio.Some?, now, junk);
        FlightTravels(mesh, i, Q.Sent(Q.RecvRrep(mesh.nodes[m.to], m, S.NULL_IP, radio.Some?, now, junk).1));
      }
    case StepServe(n, audience) =>
      var node := mesh.nodes[n];
      FloodTravels(node, Q.Serve(node, now).0, audience);
      if Q.RepliesNext(node) {
        NextIsDue(node);
        var rest := node.(tasks := RemoveAt(node.tasks, Served(node.tasks)));
        ReplyTravels(rest, node.tasks[Served(node.tasks)].FlowKey(), now);
      } else {
        NothingSent();
      }
    case StepLocal(n, local, audience) =>
      FloodTravels(mesh.nodes[n], D.After(mesh.nodes[n], local, now), audience);
    case StepLose(i) =>
  }

  lemma NothingSent()
    ensures Q.Sent(None) == []
  {
  }

  lemma PassedTravels(m: N.Msg, out: Q.Outcome, audience: seq<Ip>)
    requires m.Rreq? && Travels(m) && m.to != S.NULL_IP
    ensures forall c :: c in Passed(m, out, audience) ==> Travels(c)
  {
  }

  /** The route back to where an answered request came from stays for the delete period. */
  lemma {:induction false} AnsweredLives(ms: seq<Mesh>, ss: seq<Step>, clock: seq<nat>, i: nat, j: nat, x: Ip,
                                         flow: Key)
    requires Run(ms, ss, clock) && i < j <= |ss| && clock[j] <= clock[i] + DELETE_PERIOD
    requires Enabled(ms[i], ss[i]) && AnswersAt(ms[i], ss[i], clock[i], x, flow)
    ensures x in ms[j].nodes && Lives(ms[j].nodes[x].tables, N.Reverse(flow), clock[i] + DELETE_PERIOD, clock[j])
    decreases j
  {
    hide Start, Next, Enabled, Ordinary, Run, Lives, AnswersAt, Travels, DueHere;
    StepOf(ms, ss, clock, j - 1);
    Ordered(ms, ss, clock, i, j - 1);
    RunDue(ms, ss, clock, j - 1);
    RunTravels(ms, ss, clock, j - 1);
    var until := clock[i] + DELETE_PERIOD;
    if j > i + 1 {
      AnsweredLives(ms, ss, clock, i, j - 1, x, flow);
      StepLives(ms[j - 1], ss[j - 1], clock[j - 1], x, N.Reverse(flow), until);
    } else {
      AnswerLives(ms[i], ss[i], clock[i], x, flow);
    }
    LivesOn(ms[j].nodes[x].tables, N.Reverse(flow), until, clock[j - 1], clock[j]);
  }

  lemma Ordered(ms: seq<Mesh>, ss: seq<Step>, clock: seq<nat>, i: nat, j: nat)
    requires Run(ms, ss, clock) && i <= j <= |ss|
    ensures |ms| == |ss| + 1 == |clock| && clock[i] <= clock[j]
  {
  }

  lemma LivesOn(t: R.Tables, key: Key, until: nat, now: nat, now': nat)
    requires Lives(t, key, until, now) && now <= now'
    ensures Lives(t, key, until, now')
  {
    var r :| r in t.routes && Lasts(r, key, until, now);
    assert Lasts(r, key, until, now');
  }

  lemma AnswerLives(mesh: Mesh, s: Step, now: nat, x: Ip, flow: Key)
    requires Enabled(mesh, s) && AnswersAt(mesh, s, now, x, flow)
    ensures x in Next(mesh, s, now).nodes
    ensures Lives(Next(mesh, s, now).nodes[x].tables, N.Reverse(flow), now + DELETE_PERIOD, now)
  {
    hide Q.RecvRreq, Q.RecvRrep, Q.Serve, D.After, N.Broadcast;
    var m := mesh.flight[s.i];
    AnsweredIsDue(mesh.nodes[x], mesh.routing, m, S.NULL_IP, s.radio, now, s.junk);
    var n' := Q.RecvRreq(mesh.nodes[x], mesh.routing, m, S.NULL_IP, s.radio, now, s.junk).0;
    var r :| r in n'.tables.routes && r.key == Key(m.flow.dst, m.flow.src, m.flow.tos) && r.state == T.Active
             && r.id == m.id && r.nextHop == m.from && r.lifetime == now + DELETE_PERIOD;
    assert Lasts(r, N.Reverse(flow), now + DELETE_PERIOD, now);
  }

  /** So if the task of the reply is served within the delete period, the reply is sent. */
  lemma AnsweredIsSent(ms: seq<Mesh>, ss: seq<Step>, clock: seq<nat>, i: nat, j: nat, x: Ip, flow: Key)
    requires Run(ms, ss, clock) && i < j < |ss| && clock[j] <= clock[i] + DELETE_PERIOD
    requires Enabled(ms[i], ss[i]) && AnswersAt(ms[i], ss[i], clock[i], x, flow)
    requires RepliesAt(ms[j], ss[j], x, flow)
    ensures Q.Serve(ms[j].nodes[x], clock[j]).1.Some?
  {
    AnsweredLives(ms, ss, clock, i, j, x, flow);
    hide Run, Served, Q.GenRrep;
    var n := ms[j].nodes[x];
    var rest := n.(tasks := RemoveAt(n.tasks, Served(n.tasks)));
    ReplyRemembers(rest, flow, clock[j]);
    var r :| r in n.tables.routes && Lasts(r, N.Reverse(flow), clock[i] + DELETE_PERIOD, clock[j]);
    assert r in rest.tables.routes;
  }
}
