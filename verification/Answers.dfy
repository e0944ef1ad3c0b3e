/** What handling a message leaves to be done and remembered: the reply that an answered request is due, the timer of
    the neighbour that was heard, and the previous hops of the routes that a reply confirms. */
module Answers {
  import opened Types
  import opened TaskQueues
  import opened TimerQueues
  import opened PacketQueues
  import opened Requests
  import D = Discovery
  import F = Refinement
  import M = Metrics
  import N = Network
  import R = Routing
  import S = SourceLists
  import T = RouteTables

  // ---- Timers of one kind ----

  /** How many tasks or timers there are of a flow and kind. */
  function Count(q: seq<TaskInfo>, key: Key, kind: int): nat {
    if q == [] then 0
    else
      var x := q[|q| - 1];
      Count(q[..|q| - 1], key, kind) + (if x.kind == kind && x.FlowKey() == key then 1 else 0)
  }

  lemma {:induction false} CountSum(a: seq<TaskInfo>, b: seq<TaskInfo>, key: Key, kind: int)
    ensures Count(a + b, key, kind) == Count(a, key, kind) + Count(b, key, kind)
  {
    if b == [] {
      assert a + b == a;
    } else {
      assert (a + b)[..|a + b| - 1] == a + b[..|b| - 1];
      CountSum(a, b[..|b| - 1], key, kind);
    }
  }

  lemma CountOne(x: TaskInfo, key: Key, kind: int)
    ensures Count([x], key, kind) == if x.kind == kind && x.FlowKey() == key then 1 else 0
  {
    assert [x][..0] == [];
  }

  lemma CountWith(q: seq<TaskInfo>, i: nat, x: TaskInfo, key: Key, kind: int)
    requires i <= |q|
    ensures Count(InsertAt(q, i, x), key, kind)
         == Count(q, key, kind) + (if x.kind == kind && x.FlowKey() == key then 1 else 0)
  {
    CountSum(q[..i], q[i..], key, kind);
    assert q == q[..i] + q[i..];
    CountSum(q[..i] + [x], q[i..], key, kind);
    CountSum(q[..i], [x], key, kind);
    CountOne(x, key, kind);
  }

  lemma CountWithout(q: seq<TaskInfo>, i: nat, key: Key, kind: int)
    requires i < |q|
    ensures Count(q, key, kind)
         == Count(RemoveAt(q, i), key, kind) + (if q[i].kind == kind && q[i].FlowKey() == key then 1 else 0)
  {
    CountWith(RemoveAt(q, i), i, q[i], key, kind);
    assert InsertAt(RemoveAt(q, i), i, q[i]) == q;
  }

  /** There is one exactly if the search for it would find one. */
  lemma {:induction false} CountPositive(q: seq<TaskInfo>, key: Key, kind: int)
    ensures Count(q, key, kind) > 0 <==> exists j :: 0 <= j < |q| && q[j].kind == kind && q[j].FlowKey() == key
  {
    if q != [] {
      var n := |q| - 1;
      CountPositive(q[..n], key, kind);
      if j :| 0 <= j < |q| && q[j].kind == kind && q[j].FlowKey() == key {
        assert j < n ==> q[..n][j].kind == kind && q[..n][j].FlowKey() == key;
      }
      if j :| 0 <= j < n && q[..n][j].kind == kind && q[..n][j].FlowKey() == key {
        assert q[j].kind == kind && q[j].FlowKey() == key;
      }
    }
  }

  /** A timer that is set, and one that is deleted. */
  lemma TimerSet(q: seq<TaskInfo>, x: TaskInfo, key: Key, kind: int)
    ensures Count(InsertTimer(q, x), key, kind)
         == Count(q, key, kind) + (if x.kind == kind && x.FlowKey() == key then 1 else 0)
    ensures x in InsertTimer(q, x) && forall y :: y in q ==> y in InsertTimer(q, x)
  {
    hide InsertPos;
    var i := InsertPos(q, x.time);
    CountWith(q, i, x, key, kind);
    assert InsertTimer(q, x)[i] == x;
    forall y | y in q
      ensures y in InsertTimer(q, x)
    {
      var j :| 0 <= j < |q| && q[j] == y;
      assert InsertTimer(q, x)[if j < i then j else j + 1] == y;
    }
  }

  lemma TimerDeleted(q: seq<TaskInfo>, k: Key, kd: int, key: Key, kind: int)
    ensures Count(WithoutTimer(q, k, kd), key, kind)
         == if k == key && kd == kind && Count(q, key, kind) > 0 then Count(q, key, kind) - 1 else Count(q, key, kind)
  {
    hide FirstMatch;
    var i := FirstMatch(q, k, kd);
    CountPositive(q, key, kind);
    if i < |q| {
      CountWithout(q, i, key, kind);
    }
  }

  // ---- Neighbours heard ----

  /** A neighbour that is heard has one timer if it had at most one, and it will be due only after 4100 ms. */
  lemma HeardIsWaitedFor(n: D.Node, ip: Ip, now: nat)
    requires Count(n.timers, Key(ip, ip, 0), TASK_NEIGHBOR) <= 1
    ensures var n' := Heard(n, ip, now);
      && n' == n.(timers := n'.timers)
      && Count(n'.timers, Key(ip, ip, 0), TASK_NEIGHBOR) == 1
      && exists x :: x in n'.timers && x.kind == TASK_NEIGHBOR && x.FlowKey() == Key(ip, ip, 0) && x.time == now + 4100
  {
    hide InsertTimer, WithoutTimer, Count;
    var key := Key(ip, ip, 0);
    var x := SimpleTimer(TASK_NEIGHBOR, NEIGHBOR_TIMEOUT, ip, now);
    TimerDeleted(n.timers, key, TASK_NEIGHBOR, key, TASK_NEIGHBOR);
    TimerSet(WithoutTimer(n.timers, key, TASK_NEIGHBOR), x, key, TASK_NEIGHBOR);
  }

  /** So it is with the sender of every request and reply that is handled, if it is a known neighbour: the timer is set
      before anything else is looked at but the time of a request. */
  lemma SendersAreWaitedFor(n: D.Node, routing: M.Routing, m: N.Msg, gw: Ip, radio: Option<N.Radio>, now: nat,
                            junk: nat)
    requires radio.Some? ==> radio.value.link.Valid()
    requires Count(n.timers, Key(m.from, m.from, 0), TASK_NEIGHBOR) <= 1
    ensures m.Rreq? ==>
      (if radio.Some? && (m.ttl > 1 || m.flow.dst == n.me || gw == n.me)
       then WaitsFor(RecvRreq(n, routing, m, gw, radio, now, junk).0.timers, m.from, now)
       else RecvRreq(n, routing, m, gw, radio, now, junk).0 == n)
    ensures m.Rrep? ==>
      (if radio.Some? then WaitsFor(RecvRrep(n, m, gw, true, now, junk).0.timers, m.from, now)
       else RecvRrep(n, m, gw, false, now, junk).0 == n)
  {
    hide N.PathMetric, Count, ReplyPending, R.Learn, Heard, Relay, D.RecvRrep, InsertTimer, WithoutTimer, WaitsFor;
    assert WaitsFor(Heard(n, m.from, now).timers, m.from, now) by { HeardWaits(n, m.from, now); }
    var heard := Heard(n, m.from, now);
    HeardSame(n, m.from, now);
    if m.Rreq? && radio.Some? {
      AwaitKeeps(heard.timers, m.flow, now, m.from);
    } else if m.Rrep? {
      RelayKeepsTimers(heard, m, now, junk);
      var news := NewsOfReply(m, m.path);
      D.RrepLeaves(heard, news, now, junk);
      RetryKeeps(heard.timers, news.key, now, m.from);
    }
  }

  /** There is one timer for the neighbour, and it is due in 4100 ms. */
  ghost predicate WaitsFor(timers: seq<TaskInfo>, ip: Ip, now: nat) {
    && Count(timers, Key(ip, ip, 0), TASK_NEIGHBOR) == 1
    && exists x :: x in timers && x.kind == TASK_NEIGHBOR && x.FlowKey() == Key(ip, ip, 0) && x.time == now + 4100
  }

  lemma HeardWaits(n: D.Node, ip: Ip, now: nat)
    requires Count(n.timers, Key(ip, ip, 0), TASK_NEIGHBOR) <= 1
    ensures WaitsFor(Heard(n, ip, now).timers, ip, now)
  {
    hide Heard, Count;
    HeardIsWaitedFor(n, ip, now);
  }

  lemma AwaitKeeps(timers: seq<TaskInfo>, flow: Key, now: nat, ip: Ip)
    ensures WaitsFor(timers, ip, now) ==>
      WaitsFor(InsertTimer(timers, DirectionalTimer(TASK_SEND_RREP, RREP_TIMER, 0, flow, now)), ip, now)
  {
    hide InsertTimer, Count;
    TimerSet(timers, DirectionalTimer(TASK_SEND_RREP, RREP_TIMER, 0, flow, now), Key(ip, ip, 0), TASK_NEIGHBOR);
  }

  lemma RetryKeeps(timers: seq<TaskInfo>, flow: Key, now: nat, ip: Ip)
    ensures WaitsFor(timers, ip, now) ==> WaitsFor(WithoutTimer(timers, flow, TASK_RESEND_RREQ), ip, now)
  {
    hide FirstMatch, Count;
    TimerDeleted(timers, flow, TASK_RESEND_RREQ, Key(ip, ip, 0), TASK_NEIGHBOR);
    var i := FirstMatch(timers, flow, TASK_RESEND_RREQ);
    if i < |timers| && WaitsFor(timers, ip, now) {
      var x :| x in timers && x.kind == TASK_NEIGHBOR && x.FlowKey() == Key(ip, ip, 0) && x.time == now + 4100;
      var j :| 0 <= j < |timers| && timers[j] == x;
      assert RemoveAt(timers, i)[if j < i then j else j - 1] == x;
    }
  }

  lemma HeardKeeps(n: D.Node, ip: Ip, now: nat, key: Key, kind: int)
    requires kind != TASK_NEIGHBOR
    ensures Count(Heard(n, ip, now).timers, key, kind) == Count(n.timers, key, kind)
  {
    hide InsertTimer, WithoutTimer, Count;
    var k := Key(ip, ip, NO_TOS);
    var x := SimpleTimer(TASK_NEIGHBOR, NEIGHBOR_TIMEOUT, ip, now);
    TimerDeleted(n.timers, k, TASK_NEIGHBOR, key, kind);
    TimerSet(WithoutTimer(n.timers, k, TASK_NEIGHBOR), x, key, kind);
  }

  // ---- Requests answered ----

  /** The timers of replies to the flow after it has been seen to that there is one. */
  lemma AwaitedCount(n: D.Node, flow: Key, now: nat, key: Key)
    ensures var n' := AwaitReply(n, flow, now);
      && n' == n.(timers := n'.timers)
      && Count(n'.timers, key, TASK_SEND_RREP)
           == (if key == flow && Count(n.timers, flow, TASK_SEND_RREP) == 0 then 1
               else Count(n.timers, key, TASK_SEND_RREP))
      && (Count(n.timers, flow, TASK_SEND_RREP) == 0 ==>
            exists x :: x in n'.timers && x.kind == TASK_SEND_RREP && x.FlowKey() == flow && x.time == now + RREP_TIMER)
  {
    hide InsertTimer, Count;
    CountPositive(n.timers, flow, TASK_SEND_RREP);
    var x := DirectionalTimer(TASK_SEND_RREP, RREP_TIMER, 0, flow, now);
    TimerSet(n.timers, x, key, TASK_SEND_RREP);
    TimerSet(n.timers, x, flow, TASK_SEND_RREP);
  }

  /** What a request leaves in the way of replies to send. If it is answered, there is a timer for the reply to its
      flow, one if there was at most one, which waits 100 ms if there was none; and there is a route for the reply to
      take. Otherwise, and for all other flows, the pending replies are as they were. */
  lemma AnsweredIsDue(n: D.Node, routing: M.Routing, m: N.Msg, gw: Ip, radio: Option<N.Radio>, now: nat, junk: nat)
    requires m.Rreq? && (radio.Some? ==> radio.value.link.Valid())
    ensures var (n', out) := RecvRreq(n, routing, m, gw, radio, now, junk);
      && n'.tasks == n.tasks
      && (forall key :: Count(n'.timers, key, TASK_SEND_RREP)
            == if out.Answered? && key == m.flow && Count(n.timers, key, TASK_SEND_RREP) == 0 then 1
               else Count(n.timers, key, TASK_SEND_RREP))
      && (out.Answered? && Count(n.timers, m.flow, TASK_SEND_RREP) == 0 ==>
            exists x :: x in n'.timers && x.kind == TASK_SEND_RREP && x.FlowKey() == m.flow && x.time == now + 100)
      && (out.Answered? ==>
            exists r :: r in n'.tables.routes && r.key == Key(m.flow.dst, m.flow.src, m.flow.tos) && r.state == T.Active
                        && r.id == m.id && r.nextHop == m.from && r.lifetime == now + DELETE_PERIOD)
  {
    hide N.PathMetric, Heard, Count, AwaitReply, R.Learn;
    var heard := Heard(n, m.from, now);
    HeardSame(n, m.from, now);
    forall key
      ensures Count(heard.timers, key, TASK_SEND_RREP) == Count(n.timers, key, TASK_SEND_RREP)
    {
      HeardKeeps(n, m.from, now, key, TASK_SEND_RREP);
    }
    var out := RecvRreq(n, routing, m, gw, radio, now, junk).1;
    if out.Answered? {
      var metric := N.PathMetric(routing, radio.value, m.flow.tos, (m.hops + 1) % U8, m.metric).path;
      LearnedIsThere(n.tables, n.me, NewsOf(m, metric), now, junk);
      var learned := heard.(tables := R.Learn(n.tables, n.me, NewsOf(m, metric), now, junk).0);
      forall key
        ensures Count(AwaitReply(learned, m.flow, now).timers, key, TASK_SEND_RREP)
             == if key == m.flow && Count(n.timers, key, TASK_SEND_RREP) == 0 then 1
                else Count(n.timers, key, TASK_SEND_RREP)
      {
        AwaitedCount(learned, m.flow, now, key);
      }
      AwaitedCount(learned, m.flow, now, m.flow);
    }
  }

  lemma HeardSame(n: D.Node, ip: Ip, now: nat)
    ensures Heard(n, ip, now).(timers := n.timers) == n
  {
  }

  /** News that is accepted is in the table. */
  lemma LearnedIsThere(t: R.Tables, me: Ip, news: R.News, now: nat, junk: nat)
    ensures R.Learn(t, me, news, now, junk).1 ==>
      exists r :: r in R.Learn(t, me, news, now, junk).0.routes && r.key == news.key && r.state == T.Active
                  && r.id == news.id && r.nextHop == news.nextHop && r.lifetime == now + DELETE_PERIOD
                  && r.hops == news.hops && r.metric == news.metric
  {
    hide T.Find, S.Find, S.Exhausted;
    var t' := R.Learn(t, me, news, now, junk).0;
    var found := T.Find(t.routes, news.key);
    var k := if found < |t.routes| then found else T.PlaceFor(t.routes, news.key.dst);
    hide T.PlaceFor;
    if R.Learn(t, me, news, now, junk).1 {
      assert t'.routes[k] in t'.routes;
    }
  }

  /** Requests to the outside. The gateway that is named answers those it can learn from, another gateway does not touch
      its routes, and every other node sends on those it can learn from, while their TTL lasts. */
  lemma GatewaysAnswer(n: D.Node, routing: M.Routing, m: N.Msg, gw: Ip, radio: Option<N.Radio>, now: nat, junk: nat)
    requires m.Rreq? && radio.Some? && radio.value.link.Valid() && m.flow.dst == S.NULL_IP != n.me
    ensures var (n', out) := RecvRreq(n, routing, m, gw, radio, now, junk);
      var metric := N.PathMetric(routing, radio.value, m.flow.tos, (m.hops + 1) % U8, m.metric);
      var learned := m.flow.src != n.me && metric.Total?
                     && R.Learn(n.tables, n.me, NewsOf(m, metric.path), now, junk).1;
      if n.me == gw then out == if learned then Answered else Ignored
      else if n.gateway then out == Ignored && n'.tables == n.tables
      else out == if learned && m.ttl > 1 then Forwarded(m.ttl - 1, (m.hops + 1) % U8, metric.path) else Ignored
  {
    hide N.PathMetric, AwaitReply, R.Learn, InsertTimer, WithoutTimer;
  }

  /** Replies for traffic from the outside. They end at the gateway that is named, where they end the retries of their
      flow; nobody else touches those. */
  lemma GatewaysAreAnswered(n: D.Node, m: N.Msg, gw: Ip, now: nat, junk: nat)
    requires m.Rrep? && m.flow.src == S.NULL_IP != n.me
    ensures var (n', out) := RecvRrep(n, m, gw, true, now, junk);
      var before := Count(n.timers, m.flow, TASK_RESEND_RREQ);
      var after := Count(n'.timers, m.flow, TASK_RESEND_RREQ);
      if n.me == gw then out == None && after == (if before > 0 then before - 1 else 0)
      else after == before
  {
    hide Count, D.Settled, Joined, R.Learn, InsertTimer, WithoutTimer, T.FindById, R.Moved;
    var heard := Heard(n, m.from, now);
    HeardKeeps(n, m.from, now, m.flow, TASK_RESEND_RREQ);
    TimerDeleted(heard.timers, m.flow, TASK_RESEND_RREQ, m.flow, TASK_RESEND_RREQ);
    if n.me == gw {
      D.RrepLeaves(heard, NewsOfReply(m, m.path), now, junk);
    } else {
      RelayKeepsTimers(heard, m, now, junk);
    }
  }

  lemma RelayKeepsTimers(n: D.Node, m: N.Msg, now: nat, junk: nat)
    requires m.Rrep?
    ensures var n' := Relay(n, m, now, junk).0; n'.timers == n.timers && n'.tasks == n.tasks
  {
    hide R.Learn, T.FindById, R.Moved, R.Confirm;
  }

  // ---- Replies that are due ----

  /** How many replies to the flow are to be sent. */
  function Pending(n: D.Node, flow: Key): nat {
    Count(n.tasks, flow, TASK_SEND_RREP) + Count(n.timers, flow, TASK_SEND_RREP)
  }

  /** Replies are due only to requests for this node. */
  ghost predicate DueHere(n: D.Node) {
    forall flow :: Pending(n, flow) > 0 ==> flow.dst == n.me != flow.src
  }

  /** A request that is answered inside the mesh was for this node, and came from another. */
  lemma AnsweredIsOurs(n: D.Node, routing: M.Routing, m: N.Msg, radio: Option<N.Radio>, now: nat, junk: nat)
    requires m.Rreq? && n.me != S.NULL_IP && (radio.Some? ==> radio.value.link.Valid())
    ensures RecvRreq(n, routing, m, S.NULL_IP, radio, now, junk).1.Answered? ==> m.flow.dst == n.me != m.flow.src
  {
    hide N.PathMetric, AwaitReply, R.Learn, InsertTimer, WithoutTimer;
  }

  /** A reply that is heard leaves the replies that are due here alone. */
  lemma RecvRrepPending(n: D.Node, m: N.Msg, gw: Ip, known: bool, now: nat, junk: nat, flow: Key)
    requires m.Rrep?
    ensures Pending(RecvRrep(n, m, gw, known, now, junk).0, flow) == Pending(n, flow)
  {
    hide Count, Relay, D.RecvRrep, InsertTimer, WithoutTimer;
    var heard := Heard(n, m.from, now);
    HeardKeeps(n, m.from, now, flow, TASK_SEND_RREP);
    TimerDeleted(heard.timers, m.flow, TASK_RESEND_RREQ, flow, TASK_SEND_RREP);
    RelayKeepsTimers(heard, m, now, junk);
    D.RrepLeaves(heard, NewsOfReply(m, m.path), now, junk);
  }

  lemma GenRrepPending(n: D.Node, flow: Key, now: nat, key: Key)
    ensures Pending(GenRrep(n, flow, now).0, key) == Pending(n, key)
  {
    hide Count, T.Find, R.Confirm;
  }

  lemma FloodPending(n: D.Node, key: Key, retries: nat, now: nat, flow: Key)
    ensures Pending(D.Flood(n, key, retries, now), flow) == Pending(n, flow)
  {
    hide Count, InsertTimer;
    TimerSet(n.timers, DirectionalTimer(TASK_RESEND_RREQ, 0, retries, key, now), flow, TASK_SEND_RREP);
  }

  /** Service makes one reply less exactly if it makes one. */
  lemma ServePending(n: D.Node, now: nat, flow: Key)
    ensures Pending(Serve(n, now).0, flow)
         == Pending(n, flow) - (if RepliesNext(n) && n.tasks[Served(n.tasks)].FlowKey() == flow then 1 else 0)
  {
    hide Count, GenRrep, D.Flood, D.Release, Served;
    if n.tasks != [] {
      var i := Served(n.tasks);
      var x := n.tasks[i];
      var rest := n.(tasks := RemoveAt(n.tasks, i));
      CountWithout(n.tasks, i, flow, TASK_SEND_RREP);
      GenRrepPending(rest, x.FlowKey(), now, flow);
      FloodPending(rest, x.FlowKey(), RREQ_RETRIES, now, flow);
      if x.retries > 0 {
        FloodPending(rest, x.FlowKey(), x.retries - 1, now, flow);
      }
      ReleasePending(rest, x.FlowKey(), flow);
    }
  }

  lemma ReleasePending(n: D.Node, key: Key, flow: Key)
    ensures Pending(D.Release(n, key, Drop), flow) == Pending(n, flow)
  {
  }

  /** A step of discovery that neither queues nor deletes a reply, nor serves a task, leaves those that are due. */
  lemma StepPending(n: D.Node, s: D.Step, now: nat, flow: Key)
    requires !s.StepServe? && !s.StepRrep? && !s.StepAnswer?
    requires (s.StepQueue? || s.StepTimer? ==> s.x.kind != TASK_SEND_RREP)
    requires (s.StepDelete? ==> s.kind != TASK_SEND_RREP)
    ensures Pending(D.After(n, s, now), flow) == Pending(n, flow)
  {
    hide Count, InsertTimer, WithoutTimer, D.Decide, D.Flood, R.After, R.Used, R.Confirm, T.Find, Due, Picked, Judged;
    match s
    case StepOutput(p, signalling) =>
      var x := D.GenTask(D.FlowOf(n, p), now);
      CountSum([x], n.tasks, flow, TASK_SEND_RREP);
      CountOne(x, flow, TASK_SEND_RREP);
    case StepSignal =>
      var due := Due(n.timers, now);
      CountSum(n.tasks, n.timers[..due], flow, TASK_SEND_RREP);
      CountSum(n.timers[..due], n.timers[due..], flow, TASK_SEND_RREP);
      assert n.timers == n.timers[..due] + n.timers[due..];
    case StepGenRreq(key) => FloodPending(n, key, RREQ_RETRIES, now, flow);
    case StepQueue(x) =>
      CountSum(n.tasks, [x], flow, TASK_SEND_RREP);
      CountOne(x, flow, TASK_SEND_RREP);
    case StepTimer(x) => TimerSet(n.timers, x, flow, TASK_SEND_RREP);
    case StepDelete(key, kind) => TimerDeleted(n.timers, key, kind, flow, TASK_SEND_RREP);
    case _ =>
  }

  // ---- Previous hops ----

  /** Tables with the same destinations and ids are searched with the same result. */
  lemma {:induction false} SameFound(rs: seq<T.Route>, rs': seq<T.Route>, dst: Ip, id: nat)
    requires |rs'| == |rs| && forall i :: 0 <= i < |rs| ==> rs'[i].key.dst == rs[i].key.dst && rs'[i].id == rs[i].id
    ensures T.FindById(rs', dst, id) == T.FindById(rs, dst, id)
  {
    hide T.FindById;
  }

  /** What is learned of one destination does not hide the routes to others. */
  lemma LearnKeepsFound(t: R.Tables, me: Ip, news: R.News, now: nat, junk: nat, dst: Ip, id: nat)
    requires news.key.dst != dst && T.FindById(t.routes, dst, id) < |t.routes|
    ensures var rs' := R.Learn(t, me, news, now, junk).0.routes;
      var j, j' := T.FindById(t.routes, dst, id), T.FindById(rs', dst, id);
      j' == R.Moved(t.routes, news.key, j) && j' < |rs'| && rs'[j'] == t.routes[j]
  {
    hide T.Find, T.FindById, T.PlaceFor, S.Find, S.Insert;
    var j := T.FindById(t.routes, dst, id);
    var rs' := R.Learn(t, me, news, now, junk).0.routes;
    assert j != T.Find(t.routes, news.key);
    R.LearnMoves(t, me, news, now, junk, j);
    var p := R.Moved(t.routes, news.key, j);
    forall i | 0 <= i < p
      ensures rs'[i].key.dst != dst || rs'[i].id != id
    {
      if T.Find(t.routes, news.key) < |t.routes| {
        assert i != T.Find(t.routes, news.key) ==> rs'[i] == t.routes[i];
      } else {
        var at := T.PlaceFor(t.routes, news.key.dst);
        assert i < at ==> rs'[i] == t.routes[i];
        assert i > at ==> rs'[i] == t.routes[i - 1];
        assert rs'[at].key.dst == news.key.dst;
      }
    }
  }

  /** What a route keeps when it is confirmed or learns its previous hop. */
  predicate Unmoved(r: T.Route, r': T.Route) {
    && r'.key == r.key && r'.id == r.id && r'.nextHop == r.nextHop && r'.metric == r.metric && r'.hops == r.hops
    && r'.self == r.self && r'.neigh == r.neigh
  }

  lemma ConfirmUnmoved(n: D.Node, k: nat, now: nat)
    ensures var rs, rs' := n.tables.routes, D.Confirm(n, k, now).tables.routes;
      |rs'| == |rs| && forall i :: 0 <= i < |rs| ==> Unmoved(rs[i], rs'[i]) && rs'[i].lastHop == rs[i].lastHop
  {
    hide S.Find;
  }

  lemma SettledHop(n: D.Node, k: nat, hop: Ip, now: nat)
    ensures var rs, rs' := n.tables.routes, D.Settled(n, k, hop, now).tables.routes;
      && |rs'| == |rs|
      && forall i :: 0 <= i < |rs| ==>
           Unmoved(rs[i], rs'[i]) && rs'[i].lastHop == if i == k then hop else rs[i].lastHop
  {
    hide D.Confirm;
    ConfirmUnmoved(n, k, now);
  }

  lemma JoinedHops(n: D.Node, j: nat, k: nat, now: nat)
    requires j < |n.tables.routes| && k < |n.tables.routes| && j != k
    ensures var rs, rs' := n.tables.routes, Joined(n, j, k, now).tables.routes;
      && |rs'| == |rs|
      && forall i :: 0 <= i < |rs| ==>
           && Unmoved(rs[i], rs'[i])
           && rs'[i].lastHop == if i == k then rs[j].nextHop else if i == j then rs[k].nextHop else rs[i].lastHop
  {
    hide D.Confirm;
    ConfirmUnmoved(n, j, now);
    ConfirmUnmoved(D.Confirm(n, j, now), k, now);
  }

  /** What a relay sends on: the same reply, one hop longer, along the way back. What it learns, if it had no route yet:
      a route by way of the sender, that many hops long, with the metric of the path less that of the way back. */
  lemma RelayPasses(n: D.Node, m: N.Msg, now: nat, junk: nat)
    requires m.Rrep? && m.flow.src != m.flow.dst
    ensures var (n', out) := Relay(n, m, now, junk);
      var j := T.FindById(n.tables.routes, m.flow.src, m.srcId);
      out.Some? ==>
        && j < |n.tables.routes|
        && var back := n.tables.routes[j];
           && out.value == N.Rrep(back.nextHop, n.me, m.flow, m.id, m.srcId, (m.hops + 1) % 256, m.path, back.metric)
           && (ReplyListable(n, m) && T.Find(n.tables.routes, m.flow) == |n.tables.routes|
               && back.metric <= m.path < U32 ==>
                 exists r :: r in n'.tables.routes && r.key == m.flow && r.id == m.id && r.nextHop == m.from
                             && r.hops == (m.hops + 1) % 256 && r.metric == m.path - back.metric)
  {
    hide T.FindById, T.Find, R.Learn, R.Moved, Joined, N.Sub32;
    var rs := n.tables.routes;
    var j := T.FindById(rs, m.flow.src, m.srcId);
    if j < |rs| {
      var news := NewsOfReply(m, N.Sub32(m.path, rs[j].metric));
      var learned := n.(tables := R.Learn(n.tables, n.me, news, now, junk).0);
      var k := T.FindById(learned.tables.routes, m.flow.dst, m.id);
      R.LearnMoves(n.tables, n.me, news, now, junk, j);
      LearnKeepsFound(n.tables, n.me, news, now, junk, m.flow.src, m.srcId);
      if k < |learned.tables.routes| {
        RelayLearns(n, m, rs[j].metric, now, junk, R.Moved(rs, m.flow, j), k);
      }
    }
  }

  /** The new route is there, and still there when both ways have been confirmed. */
  lemma RelayLearns(n: D.Node, m: N.Msg, back: nat, now: nat, junk: nat, j: nat, k: nat)
    requires m.Rrep?
    requires var learned := n.(tables := R.Learn(n.tables, n.me, NewsOfReply(m, N.Sub32(m.path, back)), now, junk).0);
      j < |learned.tables.routes| && k < |learned.tables.routes| && j != k
    ensures var learned := n.(tables := R.Learn(n.tables, n.me, NewsOfReply(m, N.Sub32(m.path, back)), now, junk).0);
      ReplyListable(n, m) && T.Find(n.tables.routes, m.flow) == |n.tables.routes| && back <= m.path < U32 ==>
        exists r :: r in Joined(learned, j, k, now).tables.routes && r.key == m.flow && r.id == m.id
                    && r.nextHop == m.from && r.hops == (m.hops + 1) % 256 && r.metric == m.path - back
  {
    hide T.Find, S.Find, S.Insert, Joined, N.Sub32;
    var news := NewsOfReply(m, N.Sub32(m.path, back));
    var learned := n.(tables := R.Learn(n.tables, n.me, news, now, junk).0);
    if ReplyListable(n, m) && T.Find(n.tables.routes, m.flow) == |n.tables.routes| && back <= m.path < U32 {
      N.Sub32Exact(m.path, back);
      NewIsAccepted(n.tables, n.me, news, now, junk);
      LearnedIsThere(n.tables, n.me, news, now, junk);
      hide R.Learn;
      var r :| r in learned.tables.routes && r.key == news.key && r.state == T.Active && r.id == news.id
               && r.nextHop == news.nextHop && r.lifetime == now + DELETE_PERIOD && r.hops == news.hops
               && r.metric == news.metric;
      var i :| 0 <= i < |learned.tables.routes| && learned.tables.routes[i] == r;
      JoinedHops(learned, j, k, now);
      assert Joined(learned, j, k, now).tables.routes[i] in Joined(learned, j, k, now).tables.routes;
    }
  }

  lemma NewIsAccepted(t: R.Tables, me: Ip, news: R.News, now: nat, junk: nat)
    requires T.Find(t.routes, news.key) == |t.routes| && !R.Strands(t, news)
    ensures R.Learn(t, me, news, now, junk).1
  {
    hide T.Find, S.Find, S.Exhausted;
  }

  /** When a relay sends a reply on, the way ahead remembers the node the reply is sent to, which is the next one on the
      way back, and the way back remembers the next one on the way ahead. */
  lemma RelayRemembers(n: D.Node, m: N.Msg, now: nat, junk: nat)
    requires m.Rrep? && m.flow.src != m.flow.dst
    ensures var (n', out) := Relay(n, m, now, junk);
      var rs' := n'.tables.routes;
      var k, j := T.FindById(rs', m.flow.dst, m.id), T.FindById(rs', m.flow.src, m.srcId);
      out.Some? ==>
        && k < |rs'| && j < |rs'| && j != k
        && out.value.to == rs'[j].nextHop && rs'[k].lastHop == out.value.to && rs'[j].lastHop == rs'[k].nextHop
  {
    hide T.FindById, R.Learn, R.Moved, Joined;
    var rs := n.tables.routes;
    var j := T.FindById(rs, m.flow.src, m.srcId);
    if j < |rs| {
      var news := NewsOfReply(m, N.Sub32(m.path, rs[j].metric));
      var learned := n.(tables := R.Learn(n.tables, n.me, news, now, junk).0);
      var k := T.FindById(learned.tables.routes, m.flow.dst, m.id);
      R.LearnMoves(n.tables, n.me, news, now, junk, j);
      LearnKeepsFound(n.tables, n.me, news, now, junk, m.flow.src, m.srcId);
      if k < |learned.tables.routes| {
        var j' := R.Moved(rs, m.flow, j);
        JoinedHops(learned, j', k, now);
        SameFound(learned.tables.routes, Joined(learned, j', k, now).tables.routes, m.flow.dst, m.id);
        SameFound(learned.tables.routes, Joined(learned, j', k, now).tables.routes, m.flow.src, m.srcId);
      }
    }
  }

  /** At its source a reply leads to a route that remembers the node itself. */
  lemma SourceRemembers(n: D.Node, news: R.News, now: nat, junk: nat)
    ensures var rs' := D.RecvRrep(n, news, now, junk).tables.routes;
      var k := T.FindById(rs', news.key.dst, news.id);
      k < |rs'| ==> rs'[k].lastHop == n.me
  {
    hide T.FindById, R.Learn, WithoutTimer, D.Settled;
    var learned := n.(tables := R.Learn(n.tables, n.me, news, now, junk).0,
                      timers := WithoutTimer(n.timers, news.key, TASK_RESEND_RREQ));
    var k := D.RouteAfter(n, news, now, junk);
    SettledHop(learned, k, n.me, now);
    SameFound(learned.tables.routes, D.Settled(learned, k, n.me, now).tables.routes, news.key.dst, news.id);
  }

  /** The route that a reply is made on remembers its own source, the node that replies. */
  lemma ReplyRemembers(n: D.Node, flow: Key, now: nat)
    ensures var (n', out) := GenRrep(n, flow, now);
      out.Some? <==> exists r :: r in n.tables.routes && r.key == Key(flow.dst, flow.src, flow.tos)
    ensures var (n', out) := GenRrep(n, flow, now);
      out.Some? ==>
        exists r' :: r' in n'.tables.routes && r'.key == Key(flow.dst, flow.src, flow.tos) && r'.lastHop == flow.dst
                     && r'.nextHop == out.value.to && r'.id == out.value.srcId
  {
    hide T.Find, D.Settled;
    var rs := n.tables.routes;
    var k := T.Find(rs, N.Reverse(flow));
    if k < |rs| {
      var numbered := n.(seqNo := n.seqNo + 1);
      SettledHop(numbered, k, rs[k].key.src, now);
      assert rs[k] in rs;
      var rs' := GenRrep(n, flow, now).0.tables.routes;
      assert rs'[k] in rs';
    }
  }
}
