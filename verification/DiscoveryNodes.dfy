/** A node as the kernel module keeps it: routing tables, task queue, timer list and packet queue, and the handlers
    that work across them. Each handler does to the four structures what its function in `Discovery` says. */
module DiscoveryNodes {
  import opened Types
  import opened TaskQueues
  import opened TimerQueues
  import opened PacketQueues
  import D = Discovery
  import R = Routing
  import T = RouteTables
  import S = SourceLists
  import M = Metrics
  import N = Network
  import Q = Requests
  import opened Routers

  class DiscoveryNode {
    const router: Router
    const tasks: TaskQueue
    const timers: TimerQueue
    const packets: PacketQueue
    const internal: set<Ip>

    var seqNo: nat

    /** The requests sent so far and the calls of `ipq_drop_ip`. */
    var floods: seq<D.Request>
    var drops: seq<Key>

    ghost predicate Valid()
      reads router.table, router.table.Repr, router.sources, router.sources.Repr
      reads tasks, tasks.Repr, timers, timers.Repr, packets, packets.Repr
    {
      && router.Valid() && tasks.Valid() && timers.Valid() && packets.Valid()
      && tasks.Repr !! timers.Repr
      && !packets.flushing && !packets.terminate
    }

    ghost function Value(): D.Node
      reads this, router.table, router.sources, tasks, timers, packets
    {
      D.Node(router.me, router.gateway, internal, packets.maxlen, seqNo, router.Value(), tasks.Contents,
             timers.Contents, packets.Contents, packets.reinjected, floods, drops)
    }

    /** The node as `create_aodv_dev` leaves it: with its route to itself, and itself as a source. */
    constructor (me: Ip, gateway: bool, internal: set<Ip>, room: nat)
      requires me != S.NULL_IP
      ensures Valid() && Value() == D.Node(me, gateway, internal, room, 1, R.Boot(me), [], [], [], [], [], [])
      ensures D.Start(Value()) && D.SelfListed(Value())
    {
      hide Router.Valid, TaskQueue.Valid, TimerQueue.Valid, PacketQueue.Valid, R.Listed, R.Boot;
      router := new Router(me, gateway);
      tasks := new TaskQueue();
      timers := new TimerQueue();
      packets := new PacketQueue(room);
      this.internal, seqNo, floods, drops := internal, 1, [], [];
      new;
      D.BootListed(me);
    }

    /** The part of `gen_rreq` and `resend_rreq` that sends a request and sets the timer for the next. */
    method Flood(key: Key, retries: nat, now: nat)
      requires Valid()
      modifies this`seqNo, this`floods, timers, timers.Repr`next
      ensures Valid() && Value() == D.Flood(old(Value()), key, retries, now)
      ensures timers.Repr >= old(timers.Repr) && fresh(timers.Repr - old(timers.Repr))
    {
      hide Router.Valid, TaskQueue.Valid, TimerQueue.Valid, PacketQueue.Valid, InsertTimer, DirectionalTimer;
      seqNo := seqNo + 1;
      floods := floods + [D.Request(key, seqNo)];
      var t := new Task(DirectionalTimer(TASK_RESEND_RREQ, 0, retries, key, now));
      timers.QueueTimer(t);
    }

    method GenRreq(key: Key, now: nat)
      requires Valid()
      modifies this`seqNo, this`floods, timers, timers.Repr`next
      ensures Valid() && Value() == D.GenRreq(old(Value()), key, now)
    {
      Flood(key, RREQ_RETRIES, now);
    }

    method ResendRreq(key: Key, retries: nat, now: nat)
      requires Valid()
      modifies this`seqNo, this`floods, this`drops, timers, timers.Repr`next
      modifies packets`len, packets`reinjected, packets`Nodes, packets`Contents, packets.Repr`next, packets.Repr`prev
      ensures Valid() && Value() == D.ResendRreq(old(Value()), key, retries, now)
    {
      hide Router.Valid, TaskQueue.Valid, TimerQueue.Valid, PacketQueue.Valid, Picked, Judged;
      if retries <= 0 {
        packets.DropIp(key);
        drops := drops + [key];
        return;
      }
      Flood(key, retries - 1, now);
    }

    /** The daemon serves one task; a reply that it makes is `out`. */
    method Serve(now: nat) returns (t: Task?, out: Option<N.Msg>)
      requires Valid()
      modifies this`seqNo, this`floods, this`drops, timers, timers.Repr`next
      modifies packets`len, packets`reinjected, packets`Nodes, packets`Contents, packets.Repr`next, packets.Repr`prev
      modifies tasks, tasks.Repr`next, tasks.Repr`prev
      modifies router.table, router.table.Repr, router.sources
      ensures Valid() && (Value(), out) == Q.Serve(old(Value()), now)
      ensures t == null <==> old(tasks.Contents) == []
      ensures t != null ==> t.info == old(tasks.Contents[Served(tasks.Contents)])
    {
      hide Router.Valid, TaskQueue.Valid, TimerQueue.Valid, PacketQueue.Valid, Served, D.Flood, D.Release, Q.GenRrep;
      out := None;
      t := Take();
      if t != null {
        if t.info.kind == TASK_GEN_RREQ {
          GenRreq(t.info.FlowKey(), now);
        } else if t.info.kind == TASK_RESEND_RREQ {
          ResendRreq(t.info.FlowKey(), t.info.retries, now);
        } else if t.info.kind == TASK_SEND_RREP {
          out := GenRrep(t.info.FlowKey(), now);
        }
      }
    }

    method Take() returns (t: Task?)
      requires Valid()
      modifies tasks, tasks.Repr`next, tasks.Repr`prev
      ensures Valid()
      ensures t == null <==> old(tasks.Contents) == []
      ensures t == null ==> Value() == old(Value())
      ensures t != null ==> t.info == old(tasks.Contents[Served(tasks.Contents)])
      ensures t != null ==>
        Value() == old(Value()).(tasks := RemoveAt(old(tasks.Contents), Served(old(tasks.Contents))))
    {
      hide Router.Valid, TimerQueue.Valid, PacketQueue.Valid, Served;
      t := tasks.GetTask();
    }

    /** The timer interrupt. */
    method Signal(now: nat)
      requires Valid()
      modifies timers, timers.Repr`next, timers.Repr`prev, timers.Repr`prevControl
      modifies tasks, tasks.Repr`next, tasks.Repr`prev, tasks.Repr`prevControl
      ensures Valid() && Value() == D.Signal(old(Value()), now)
    {
      hide Router.Valid, TaskQueue.Valid, TimerQueue.Valid, PacketQueue.Valid, Due;
      timers.Signal(tasks, now);
    }

    /** `output_handler`, after which the kernel hands a packet that is to be held to the packet queue. */
    method Output(p: Packet, signalling: bool, now: nat) returns (d: D.Decision)
      requires Valid()
      modifies router.table, router.table.Repr
      modifies tasks, tasks.Repr`next, tasks.Repr`prev, tasks.Repr`prevControl
      modifies packets, packets.Repr`next, packets.Repr`prev
      ensures Valid() && d == D.Decide(old(Value()), p, signalling)
      ensures Value() == D.Output(old(Value()), p, signalling, now)
    {
      hide Router.Valid, TaskQueue.Valid, TimerQueue.Valid, PacketQueue.Valid, T.Find, R.Used;
      if signalling {
        return D.Pass;
      }
      var destination, source := S.NULL_IP, S.NULL_IP;
      if p.flow.dst in internal {
        destination := p.flow.dst;
      }
      if p.flow.src in internal {
        source := p.flow.src;
      }
      if destination == source {
        return D.Pass;
      }
      d := Route(p, Key(source, destination, p.flow.tos), now);
    }

    /** The part of `output_handler` that looks for a route. */
    method Route(p: Packet, flow: Key, now: nat) returns (d: D.Decision)
      requires Valid() && flow == D.FlowOf(Value(), p) && flow.src != flow.dst
      modifies router.table, router.table.Repr
      modifies tasks, tasks.Repr`next, tasks.Repr`prev, tasks.Repr`prevControl
      modifies packets, packets.Repr`next, packets.Repr`prev
      ensures Valid() && d == D.Decide(old(Value()), p, false)
      ensures Value() == D.Output(old(Value()), p, false, now)
    {
      hide T.RouteTable.Valid, S.SourceList.Valid, TaskQueue.Valid, TimerQueue.Valid, PacketQueue.Valid, T.Find;
      hide D.FlowOf;
      var tmpRoute, k := router.table.FindRoute(flow);
      if tmpRoute == null || tmpRoute.route.state == T.Invalid {
        if R.IsSource(flow.src, router.me, router.gateway) {
          Hold(p, flow, now);
          return D.Hold;
        } else if flow.dst == S.NULL_IP && router.gateway {
          return D.Pass;
        } else {
          return D.Discard;
        }
      } else {
        router.Use(tmpRoute, k, now);
        return D.Pass;
      }
    }

    /** Queues the request task at the front, and the packet if there is room. */
    method Hold(p: Packet, flow: Key, now: nat)
      requires Valid()
      modifies tasks, tasks.Repr`next, tasks.Repr`prev, tasks.Repr`prevControl
      modifies packets, packets.Repr`next, packets.Repr`prev
      ensures Valid()
      ensures var n := old(Value()); Value() == n.(tasks := [D.GenTask(flow, now)] + n.tasks,
                                                   held := if |n.held| < n.room then n.held + [p] else n.held)
    {
      hide Router.Valid, TaskQueue.Valid, TimerQueue.Valid, PacketQueue.Valid;
      var newTask := new Task(D.GenTask(flow, now));
      tasks.QueueControlTaskAtFront(newTask);
      var r := packets.Enqueue(p);
    }

    /** `rrep_aodv_route`. */
    method Confirm(route: T.Node, ghost k: nat, now: nat)
      requires Valid() && router.table.Found(route, k)
      modifies router.table, router.table.Repr, router.sources
      modifies packets`len, packets`reinjected, packets`Nodes, packets`Contents, packets.Repr`next, packets.Repr`prev
      ensures Valid() && Value() == D.Confirm(old(Value()), k, now) && router.table.Found(route, k)
      ensures router.table.Repr == old(router.table.Repr) && router.table.Nodes == old(router.table.Nodes)
      ensures packets.Repr == old(packets.Repr)
    {
      hide Router.Valid, TaskQueue.Valid, TimerQueue.Valid, PacketQueue.Valid, Picked, Judged, S.Find;
      var ok := router.Confirm(route, k, now);
      if ok {
        packets.SendIp(route.route.key);
      }
    }

    /** Sets the timer of a neighbour anew. */
    method Hear(ip: Ip, now: nat)
      requires Valid()
      modifies timers, timers.Repr`next
      ensures Valid() && Value() == Q.Heard(old(Value()), ip, now)
      ensures fresh(timers.Repr - old(timers.Repr))
    {
      hide Router.Valid, TaskQueue.Valid, TimerQueue.Valid, PacketQueue.Valid, InsertTimer, WithoutTimer;
      timers.DeleteTimer(Key(ip, ip, NO_TOS), TASK_NEIGHBOR);
      var t := new Task(SimpleTimer(TASK_NEIGHBOR, NEIGHBOR_TIMEOUT, ip, now));
      timers.QueueTimer(t);
    }

    // ---- Replies heard ----

    /** `recv_rrep`: what the node sends on is `out`. */
    method RecvRrep(m: N.Msg, gw: Ip, known: bool, now: nat, junk: nat) returns (out: Option<N.Msg>)
      requires Valid() && m.Rrep?
      modifies router.table, router.table.Repr, router.sources, router.sources.Repr
      modifies timers, timers.Repr`next
      modifies packets`len, packets`reinjected, packets`Nodes, packets`Contents, packets.Repr`next, packets.Repr`prev
      ensures Valid() && (Value(), out) == Q.RecvRrep(old(Value()), m, gw, known, now, junk)
    {
      hide Router.Valid, TaskQueue.Valid, TimerQueue.Valid, PacketQueue.Valid, Q.Heard, Q.Relay, D.RecvRrep;
      if !known {
        return None;
      }
      Hear(m.from, now);
      if m.flow.src == router.me || (m.flow.src == S.NULL_IP && gw == router.me) {
        AcceptReply(Q.NewsOfReply(m, m.path), now, junk);
        return None;
      }
      out := Relay(m, now, junk);
    }

    /** The branch of the source of the flow. */
    method AcceptReply(news: R.News, now: nat, junk: nat)
      requires Valid()
      modifies router.table, router.table.Repr, router.sources, router.sources.Repr
      modifies timers, timers.Repr`next
      modifies packets`len, packets`reinjected, packets`Nodes, packets`Contents, packets.Repr`next, packets.Repr`prev
      ensures Valid() && Value() == D.RecvRrep(old(Value()), news, now, junk)
    {
      hide Router.Valid, TaskQueue.Valid, TimerQueue.Valid, PacketQueue.Valid, T.FindById, WithoutTimer;
      hide R.Learn, D.Settled;
      var learned := router.Learn(news, now, junk);
      var sendRoute, k := FindReplied(news.key.dst, news.id);
      timers.DeleteTimer(news.key, TASK_RESEND_RREQ);
      if sendRoute == null {
        return;
      }
      Settle(sendRoute, k, router.me, now);
    }

    /** The route is confirmed and its previous hop noted. */
    method Settle(route: T.Node, ghost k: nat, hop: Ip, now: nat)
      requires Valid() && router.table.Found(route, k)
      modifies router.table, router.table.Repr, router.sources
      modifies packets`len, packets`reinjected, packets`Nodes, packets`Contents, packets.Repr`next, packets.Repr`prev
      ensures Valid() && Value() == D.Settled(old(Value()), k, hop, now)
    {
      hide Router.Valid, TaskQueue.Valid, TimerQueue.Valid, PacketQueue.Valid, D.Confirm;
      Confirm(route, k, now);
      router.SetLastHop(route, k, hop, now);
    }

    method FindReplied(dst: Ip, id: nat) returns (r: T.Node?, ghost k: nat)
      requires Valid()
      ensures k == T.FindById(router.table.Contents, dst, id) && router.table.Found(r, k)
    {
      r, k := router.table.FindRouteById(dst, id);
    }

    /** The branch of a relay. */
    method Relay(m: N.Msg, now: nat, junk: nat) returns (out: Option<N.Msg>)
      requires Valid() && m.Rrep?
      modifies router.table, router.table.Repr, router.sources, router.sources.Repr
      modifies packets`len, packets`reinjected, packets`Nodes, packets`Contents, packets.Repr`next, packets.Repr`prev
      ensures Valid() && (Value(), out) == Q.Relay(old(Value()), m, now, junk)
    {
      hide Router.Valid, TaskQueue.Valid, TimerQueue.Valid, PacketQueue.Valid, T.FindById, R.Learn, R.Moved, Q.Joined;
      var recvRoute, j := FindReplied(m.flow.src, m.srcId);
      if recvRoute == null {
        return None;
      }
      var back := recvRoute.route.metric;
      var news := Q.NewsOfReply(m, N.Sub32(m.path, back));
      ghost var j' := R.Moved(router.table.Contents, m.flow, j);
      R.LearnMoves(router.Value(), router.me, news, now, junk, j);
      var learned := router.Learn(news, now, junk);
      InTable(recvRoute, j');
      var sendRoute, k := FindReplied(m.flow.dst, m.id);
      if sendRoute == null {
        return None;
      }
      Join(recvRoute, j', sendRoute, k, now);
      out := Some(N.Rrep(recvRoute.route.nextHop, router.me, m.flow, m.id, m.srcId, news.hops, m.path, back));
    }

    lemma InTable(route: T.Node, k: nat)
      requires Valid() && k < |router.table.Nodes| && router.table.Nodes[k] == route
      ensures router.table.Found(route, k)
    {
      router.table.NodeFound(k);
    }

    method ConfirmBoth(recvRoute: T.Node, ghost j: nat, sendRoute: T.Node, ghost k: nat, now: nat)
      requires Valid() && router.table.Found(recvRoute, j) && router.table.Found(sendRoute, k)
      modifies router.table, router.table.Repr, router.sources
      modifies packets`len, packets`reinjected, packets`Nodes, packets`Contents, packets.Repr`next, packets.Repr`prev
      ensures Valid() && Value() == D.Confirm(D.Confirm(old(Value()), j, now), k, now)
      ensures router.table.Found(recvRoute, j) && router.table.Found(sendRoute, k)
      ensures router.table.Repr == old(router.table.Repr) && router.table.Nodes == old(router.table.Nodes)
      ensures recvRoute.route.nextHop == old(recvRoute.route.nextHop)
      ensures sendRoute.route.nextHop == old(sendRoute.route.nextHop)
    {
      hide Router.Valid, TaskQueue.Valid, TimerQueue.Valid, PacketQueue.Valid, D.Confirm;
      Q.ConfirmKeepsHops(Value(), j, now);
      Confirm(recvRoute, j, now);
      Q.ConfirmKeepsHops(Value(), k, now);
      InTable(sendRoute, k);
      Confirm(sendRoute, k, now);
      InTable(recvRoute, j);
    }

    /** Both routes are confirmed, and each learns where the other leads. */
    method Join(recvRoute: T.Node, ghost j: nat, sendRoute: T.Node, ghost k: nat, now: nat)
      requires Valid() && router.table.Found(recvRoute, j) && router.table.Found(sendRoute, k)
      modifies router.table, router.table.Repr, router.sources
      modifies packets`len, packets`reinjected, packets`Nodes, packets`Contents, packets.Repr`next, packets.Repr`prev
      ensures Valid() && Value() == Q.Joined(old(Value()), j, k, now)
      ensures router.table.Found(recvRoute, j)
      ensures recvRoute.route.nextHop == old(recvRoute.route.nextHop)
    {
      hide Router.Valid, TaskQueue.Valid, TimerQueue.Valid, PacketQueue.Valid, D.Confirm;
      ghost var n := Value();
      ConfirmBoth(recvRoute, j, sendRoute, k, now);
      router.SetLastHop(sendRoute, k, recvRoute.route.nextHop, now);
      InTable(sendRoute, k);
      InTable(recvRoute, j);
      router.SetLastHop(recvRoute, j, sendRoute.route.nextHop, now);
      InTable(recvRoute, j);
    }

    /** `gen_rrep`. */
    method GenRrep(flow: Key, now: nat) returns (out: Option<N.Msg>)
      requires Valid()
      modifies this`seqNo, router.table, router.table.Repr, router.sources
      modifies packets`len, packets`reinjected, packets`Nodes, packets`Contents, packets.Repr`next, packets.Repr`prev
      ensures Valid() && (Value(), out) == Q.GenRrep(old(Value()), flow, now)
    {
      hide Router.Valid, TaskQueue.Valid, TimerQueue.Valid, PacketQueue.Valid, D.Settled, T.Find;
      var srcRoute, k := FindReverse(flow);
      if srcRoute == null {
        return None;
      }
      seqNo := seqNo + 1;
      var route := srcRoute.route;
      out := Some(N.Rrep(route.nextHop, router.me, flow, seqNo, route.id, 0, route.metric, route.metric));
      Settle(srcRoute, k, route.key.src, now);
    }

    method FindReverse(flow: Key) returns (r: T.Node?, ghost k: nat)
      requires Valid()
      ensures k == T.Find(router.table.Contents, N.Reverse(flow)) && router.table.Found(r, k)
    {
      r, k := router.table.FindRoute(N.Reverse(flow));
    }

    // ---- Requests heard ----

    /** `recv_rreq`: what the node broadcasts again is `out`. */
    method RecvRreq(routing: M.Routing, m: N.Msg, gw: Ip, radio: Option<N.Radio>, now: nat, junk: nat)
      returns (out: Q.Outcome)
      requires Valid() && m.Rreq? && (radio.Some? ==> radio.value.link.Valid() && radio.value.own < U8)
      modifies router.table, router.table.Repr, router.sources, router.sources.Repr
      modifies timers, timers.Repr`next
      ensures Valid() && (Value(), out) == Q.RecvRreq(old(Value()), routing, m, gw, radio, now, junk)
    {
      hide Router.Valid, TaskQueue.Valid, TimerQueue.Valid, PacketQueue.Valid, Q.Heard, Q.Judge;
      var iamDestination := false;
      if m.flow.dst == router.me || gw == router.me {
        iamDestination := true;
      }
      if m.ttl <= 1 && !iamDestination {
        return Q.Ignored;
      }
      if radio == None {
        return Q.Ignored;
      }
      Hear(m.from, now);
      assert Value().me == old(Value()).me;
      out := Judge(routing, m, gw, iamDestination, radio.value, now, junk);
    }

    /** The request of a known neighbour. */
    method Judge(routing: M.Routing, m: N.Msg, gw: Ip, iamDestination: bool, radio: N.Radio, now: nat, junk: nat)
      returns (out: Q.Outcome)
      requires Valid() && m.Rreq? && radio.link.Valid() && radio.own < U8
      requires iamDestination == Q.IamDestination(Value(), m, gw) && (m.ttl > 1 || iamDestination)
      modifies router.table, router.table.Repr, router.sources, router.sources.Repr
      modifies timers, timers.Repr`next
      ensures Valid() && (Value(), out) == Q.Judge(old(Value()), routing, m, gw, radio, now, junk)
    {
      hide Router.Valid, TaskQueue.Valid, TimerQueue.Valid, PacketQueue.Valid, M.EttMetric, M.WcimMetric, Q.Take;
      if router.me == m.flow.src {
        return Q.Ignored;
      }
      if router.gateway && m.flow.dst == S.NULL_IP && gw != router.me {
        return Q.Ignored;
      }
      var hops := (m.hops + 1) % U8;
      var metric := ComputeMetric(routing, m, radio, hops);
      if !metric.Total? {
        return Q.Ignored;
      }
      out := TakeRequest(m, iamDestination, metric.path, now, junk);
    }

    /** The request is learned, and then answered or passed on. */
    method TakeRequest(m: N.Msg, iamDestination: bool, metric: nat, now: nat, junk: nat) returns (out: Q.Outcome)
      requires Valid() && m.Rreq? && (m.ttl > 1 || iamDestination)
      modifies router.table, router.table.Repr, router.sources, router.sources.Repr
      modifies timers, timers.Repr`next
      ensures Valid() && (Value(), out) == Q.Take(old(Value()), m, iamDestination, metric, now, junk)
    {
      hide Router.Valid, TaskQueue.Valid, TimerQueue.Valid, PacketQueue.Valid, R.Learn, Q.AwaitReply;
      var ok := router.Learn(Q.NewsOf(m, metric), now, junk);
      if !ok {
        return Q.Ignored;
      }
      if iamDestination {
        AwaitReply(m.flow, now);
        return Q.Answered;
      }
      return Q.Forwarded(m.ttl - 1, (m.hops + 1) % U8, metric);
    }

    /** The metric of the request under the metric in use. */
    method ComputeMetric(routing: M.Routing, m: N.Msg, radio: N.Radio, hops: nat) returns (metric: M.Metric)
      requires m.Rreq? && radio.link.Valid() && radio.own < U8
      ensures metric == N.PathMetric(routing, radio, m.flow.tos, hops, m.metric)
    {
      hide M.EttMetric, M.WcimMetric;
      if routing == M.Ett {
        metric := M.EttMetric(radio.link, m.metric);
      } else if routing == M.Wcim {
        metric := M.ComputeWcim(radio.own, radio.link, radio.near, radio.far, m.flow.tos, m.metric);
      } else {
        metric := M.Total(hops);
      }
    }

    method AwaitReply(flow: Key, now: nat)
      requires Valid()
      modifies timers, timers.Repr`next
      ensures Valid() && Value() == Q.AwaitReply(old(Value()), flow, now)
    {
      hide Router.Valid, TaskQueue.Valid, TimerQueue.Valid, PacketQueue.Valid, InsertTimer, DirectionalTimer;
      var found := timers.FindTimer(flow, TASK_SEND_RREP);
      if !found {
        var t := new Task(DirectionalTimer(TASK_SEND_RREP, RREP_TIMER, 0, flow, now));
        timers.QueueTimer(t);
      }
    }
  }
}
