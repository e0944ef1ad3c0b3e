/** The handlers of messages taken apart into steps of discovery: what is proved of every run of discovery holds of
    runs in which messages are handled. */
module Handlers {
  import opened Types
  import opened TaskQueues
  import opened TimerQueues
  import opened Requests
  import D = Discovery
  import M = Metrics
  import N = Network
  import R = Routing
  import S = SourceLists
  import T = RouteTables

  /** A run of discovery at one instant that leads from `n` to `n'`. */
  ghost predicate Leads(n: D.Node, ss: seq<D.Step>, now: nat, n': D.Node)
    decreases |ss|
  {
    if ss == [] then n' == n
    else D.Enabled(n, ss[0]) && Leads(D.After(n, ss[0], now), ss[1..], now, n')
  }

  predicate IsReply(s: D.Step) {
    s.StepRrep? || s.StepAnswer?
  }

  lemma {:induction false} LeadsOn(n: D.Node, ss: seq<D.Step>, now: nat, m: D.Node, ss': seq<D.Step>, n': D.Node)
    requires Leads(n, ss, now, m) && Leads(m, ss', now, n')
    ensures Leads(n, ss + ss', now, n')
    decreases |ss|
  {
    hide D.Enabled, D.After;
    if ss == [] {
      assert ss + ss' == ss';
    } else {
      assert (ss + ss')[1..] == ss[1..] + ss';
      LeadsOn(D.After(n, ss[0], now), ss[1..], now, m, ss', n');
    }
  }

  lemma OneStep(n: D.Node, s: D.Step, now: nat)
    requires D.Enabled(n, s)
    ensures Leads(n, [s], now, D.After(n, s, now))
  {
    assert [s][1..] == [];
  }

  /** Such a run is a run of discovery. */
  lemma {:induction false} LeadsIsRun(n: D.Node, ss: seq<D.Step>, now: nat, n': D.Node)
    returns (ns: seq<D.Node>, clock: seq<nat>)
    requires Leads(n, ss, now, n')
    ensures D.Run(ns, ss, clock) && ns[0] == n && ns[|ss|] == n'
    decreases |ss|
  {
    hide D.Enabled, D.After;
    if ss == [] {
      ns, clock := [n], [];
    } else {
      ns, clock := LeadsIsRun(D.After(n, ss[0], now), ss[1..], now, n');
      ns, clock := [n] + ns, [now] + clock;
    }
  }

  lemma HeardSteps(n: D.Node, ip: Ip, now: nat) returns (ss: seq<D.Step>)
    ensures Leads(n, ss, now, Heard(n, ip, now)) && forall s :: s in ss ==> !IsReply(s)
  {
    hide InsertTimer, WithoutTimer;
    var delete := D.StepDelete(Key(ip, ip, NO_TOS), TASK_NEIGHBOR);
    var timer := D.StepTimer(SimpleTimer(TASK_NEIGHBOR, NEIGHBOR_TIMEOUT, ip, now));
    OneStep(n, delete, now);
    OneStep(D.After(n, delete, now), timer, now);
    ss := [delete] + [timer];
    LeadsOn(n, [delete], now, D.After(n, delete, now), [timer], Heard(n, ip, now));
  }

  lemma AwaitSteps(n: D.Node, flow: Key, now: nat) returns (ss: seq<D.Step>)
    ensures Leads(n, ss, now, AwaitReply(n, flow, now)) && forall s :: s in ss ==> !IsReply(s)
  {
    hide InsertTimer, ReplyPending;
    var timer := D.StepTimer(DirectionalTimer(TASK_SEND_RREP, RREP_TIMER, 0, flow, now));
    OneStep(n, timer, now);
    ss := if ReplyPending(n.timers, flow) then [] else [timer];
  }

  lemma LearnStep(n: D.Node, news: R.News, now: nat, junk: nat) returns (s: D.Step)
    ensures Leads(n, [s], now, n.(tables := R.Learn(n.tables, n.me, news, now, junk).0)) && !IsReply(s)
  {
    hide R.Learn;
    s := D.StepTables(R.EventLearn(news, junk));
    OneStep(n, s, now);
  }

  /** A request that is heard is some steps of discovery. */
  lemma RecvRreqSteps(n: D.Node, routing: M.Routing, m: N.Msg, gw: Ip, radio: Option<N.Radio>, now: nat, junk: nat)
    returns (ss: seq<D.Step>)
    requires m.Rreq? && (radio.Some? ==> radio.value.link.Valid())
    ensures Leads(n, ss, now, RecvRreq(n, routing, m, gw, radio, now, junk).0) && forall s :: s in ss ==> !IsReply(s)
  {
    hide N.PathMetric, Heard, Take, Leads;
    var heard := Heard(n, m.from, now);
    var hs := HeardSteps(n, m.from, now);
    ss := [];
    Nothing(n, now);
    if radio.Some? && (m.ttl > 1 || IamDestination(n, m, gw)) {
      HeardSame(n, m.from, now);
      ss := hs;
      var metric := N.PathMetric(routing, radio.value, m.flow.tos, (m.hops + 1) % U8, m.metric);
      if metric.Total? {
        var ts := TakeSteps(heard, m, IamDestination(heard, m, gw), metric.path, now, junk);
        LeadsOn(n, hs, now, heard, ts, Take(heard, m, IamDestination(heard, m, gw), metric.path, now, junk).0);
        ss := if RecvRreq(n, routing, m, gw, radio, now, junk).0 == heard then hs else hs + ts;
      }
    }
  }

  lemma Nothing(n: D.Node, now: nat)
    ensures Leads(n, [], now, n)
  {
  }

  lemma HeardSame(n: D.Node, ip: Ip, now: nat)
    ensures Heard(n, ip, now).(timers := n.timers) == n
  {
  }

  lemma TakeSteps(n: D.Node, m: N.Msg, iamDestination: bool, metric: nat, now: nat, junk: nat)
    returns (ss: seq<D.Step>)
    requires m.Rreq? && (m.ttl > 1 || iamDestination)
    ensures Leads(n, ss, now, Take(n, m, iamDestination, metric, now, junk).0) && forall s :: s in ss ==> !IsReply(s)
  {
    hide R.Learn, AwaitReply, Leads;
    var learned := n.(tables := R.Learn(n.tables, n.me, NewsOf(m, metric), now, junk).0);
    var s := LearnStep(n, NewsOf(m, metric), now, junk);
    var ts := AwaitSteps(learned, m.flow, now);
    LeadsOn(n, [s], now, learned, ts, AwaitReply(learned, m.flow, now));
    ss := if Take(n, m, iamDestination, metric, now, junk).1.Answered? then [s] + ts else [s];
  }

  lemma SettledSteps(n: D.Node, k: nat, hop: Ip, now: nat)
    ensures var ss := [D.StepConfirm(k), D.StepTables(R.EventLastHop(k, hop))];
      Leads(n, ss, now, D.Settled(n, k, hop, now)) && forall s :: s in ss ==> !IsReply(s)
  {
    hide D.Confirm, R.After, Leads;
    OneStep(n, D.StepConfirm(k), now);
    ConfirmSame(n, k, now);
    OneStep(D.Confirm(n, k, now), D.StepTables(R.EventLastHop(k, hop)), now);
    LeadsOn(n, [D.StepConfirm(k)], now, D.Confirm(n, k, now), [D.StepTables(R.EventLastHop(k, hop))],
            D.Settled(n, k, hop, now));
    assert [D.StepConfirm(k)] + [D.StepTables(R.EventLastHop(k, hop))]
        == [D.StepConfirm(k), D.StepTables(R.EventLastHop(k, hop))];
  }

  lemma ConfirmSame(n: D.Node, k: nat, now: nat)
    ensures D.Confirm(n, k, now).me == n.me
  {
  }

  lemma JoinedSteps(n: D.Node, j: nat, k: nat, now: nat) returns (ss: seq<D.Step>)
    requires j < |n.tables.routes| && k < |n.tables.routes|
    ensures Leads(n, ss, now, Joined(n, j, k, now)) && forall s :: s in ss ==> !IsReply(s)
  {
    hide D.Confirm, R.After, Leads;
    var n1 := D.Confirm(n, j, now);
    var n2 := D.Settled(n1, k, n.tables.routes[j].nextHop, now);
    var s3 := D.StepTables(R.EventLastHop(j, n.tables.routes[k].nextHop));
    OneStep(n, D.StepConfirm(j), now);
    SettledSteps(n1, k, n.tables.routes[j].nextHop, now);
    ConfirmSame(n, j, now);
    ConfirmSame(n1, k, now);
    OneStep(n2, s3, now);
    var ss2 := [D.StepConfirm(k), D.StepTables(R.EventLastHop(k, n.tables.routes[j].nextHop))];
    LeadsOn(n1, ss2, now, n2, [s3], Joined(n, j, k, now));
    LeadsOn(n, [D.StepConfirm(j)], now, n1, ss2 + [s3], Joined(n, j, k, now));
    ss := [D.StepConfirm(j)] + (ss2 + [s3]);
  }

  lemma RelaySteps(n: D.Node, m: N.Msg, now: nat, junk: nat) returns (ss: seq<D.Step>)
    requires m.Rrep?
    ensures Leads(n, ss, now, Relay(n, m, now, junk).0) && forall s :: s in ss ==> !IsReply(s)
  {
    hide R.Learn, Joined, Leads, T.FindById, R.Moved;
    var rs := n.tables.routes;
    var j := T.FindById(rs, m.flow.src, m.srcId);
    Nothing(n, now);
    ss := [];
    if j < |rs| {
      var news := NewsOfReply(m, N.Sub32(m.path, rs[j].metric));
      var learned := n.(tables := R.Learn(n.tables, n.me, news, now, junk).0);
      var k := T.FindById(learned.tables.routes, m.flow.dst, m.id);
      var s := LearnStep(n, news, now, junk);
      ss := [s];
      if k < |learned.tables.routes| {
        R.LearnMoves(n.tables, n.me, news, now, junk, j);
        var js := JoinedSteps(learned, R.Moved(rs, m.flow, j), k, now);
        LeadsOn(n, [s], now, learned, js, Joined(learned, R.Moved(rs, m.flow, j), k, now));
        ss := [s] + js;
      }
    }
  }

  /** A reply that is heard is some steps of discovery. The last of them is the answer to one of the node's own
      discoveries exactly if the reply is for this node. */
  lemma RecvRrepSteps(n: D.Node, m: N.Msg, known: bool, now: nat, junk: nat) returns (ss: seq<D.Step>)
    requires m.Rrep? && n.me != S.NULL_IP
    ensures Leads(n, ss, now, RecvRrep(n, m, S.NULL_IP, known, now, junk).0)
    ensures forall i :: 0 <= i < |ss| && IsReply(ss[i]) ==>
      known && m.flow.src == n.me && i == |ss| - 1 && ss[i] == D.StepRrep(NewsOfReply(m, m.path), junk)
  {
    hide Heard, Relay, Leads, D.RecvRrep;
    Nothing(n, now);
    ss := [];
    if known {
      var heard := Heard(n, m.from, now);
      var hs := HeardSteps(n, m.from, now);
      HeardSame(n, m.from, now);
      if m.flow.src == n.me {
        var s := D.StepRrep(NewsOfReply(m, m.path), junk);
        OneStep(heard, s, now);
        LeadsOn(n, hs, now, heard, [s], D.RecvRrep(heard, NewsOfReply(m, m.path), now, junk));
        ss := hs + [s];
      } else {
        var rs := RelaySteps(heard, m, now, junk);
        LeadsOn(n, hs, now, heard, rs, Relay(heard, m, now, junk).0);
        ss := hs + rs;
      }
    }
  }

  /** A reply that is made is some steps of discovery. */
  lemma GenRrepSteps(n: D.Node, flow: Key, now: nat) returns (ss: seq<D.Step>)
    ensures Leads(n, ss, now, GenRrep(n, flow, now).0) && forall s :: s in ss ==> !IsReply(s)
  {
    hide D.Settled, T.Find, Leads;
    var k := T.Find(n.tables.routes, N.Reverse(flow));
    Nothing(n, now);
    ss := [];
    if k < |n.tables.routes| {
      var numbered := n.(seqNo := n.seqNo + 1);
      var hop := n.tables.routes[k].key.src;
      OneStep(n, D.StepNumber, now);
      SettledSteps(numbered, k, hop, now);
      var ss2 := [D.StepConfirm(k), D.StepTables(R.EventLastHop(k, hop))];
      LeadsOn(n, [D.StepNumber], now, numbered, ss2, D.Settled(numbered, k, hop, now));
      ss := [D.StepNumber] + ss2;
    }
  }

  /** The service of a task is some steps of discovery. */
  lemma ServeSteps(n: D.Node, now: nat) returns (ss: seq<D.Step>)
    ensures Leads(n, ss, now, Serve(n, now).0) && forall s :: s in ss ==> !IsReply(s)
  {
    hide GenRrep, Leads, Served, D.Flood, D.Release;
    OneStep(n, D.StepServe, now);
    ss := [D.StepServe];
    if RepliesNext(n) {
      var x := n.tasks[Served(n.tasks)];
      var rest := D.Serve(n, now);
      assert rest == n.(tasks := RemoveAt(n.tasks, Served(n.tasks)));
      var gs := GenRrepSteps(rest, x.FlowKey(), now);
      LeadsOn(n, [D.StepServe], now, rest, gs, Serve(n, now).0);
      ss := [D.StepServe] + gs;
    }
  }

  /** Steps that are not replies keep every held packet accounted for. */
  lemma {:induction false} LeadsKeeps(n: D.Node, ss: seq<D.Step>, now: nat, n': D.Node)
    requires Leads(n, ss, now, n') && D.SelfListed(n) && D.NoneStranded(n)
    requires forall s :: s in ss ==> !IsReply(s)
    ensures D.SelfListed(n') && D.NoneStranded(n') && n'.me == n.me && n'.internal == n.internal
    decreases |ss|
  {
    hide D.Enabled, D.After, D.SelfListed, D.NoneStranded;
    if ss != [] {
      assert !IsReply(ss[0]);
      D.StepKeepsMe(n, ss[0], now);
      D.StepKeepsPackets(n, ss[0], now);
      LeadsKeeps(D.After(n, ss[0], now), ss[1..], now, n');
    }
  }

  /** So requests, relayed replies and the replies that the node makes itself leave no held packet behind. */
  lemma HandlersKeepPackets(n: D.Node, routing: M.Routing, m: N.Msg, gw: Ip, radio: Option<N.Radio>, flow: Key,
                            now: nat, junk: nat)
    requires D.SelfListed(n) && D.NoneStranded(n) && n.me != S.NULL_IP
    requires radio.Some? ==> radio.value.link.Valid()
    ensures m.Rreq? ==> D.NoneStranded(RecvRreq(n, routing, m, gw, radio, now, junk).0)
    ensures m.Rrep? && m.flow.src != n.me ==>
              D.NoneStranded(RecvRrep(n, m, S.NULL_IP, radio.Some?, now, junk).0)
    ensures D.NoneStranded(GenRrep(n, flow, now).0)
  {
    hide D.SelfListed, D.NoneStranded, RecvRreq, RecvRrep, GenRrep, Leads;
    var gs := GenRrepSteps(n, flow, now);
    LeadsKeeps(n, gs, now, GenRrep(n, flow, now).0);
    if m.Rreq? {
      var ss := RecvRreqSteps(n, routing, m, gw, radio, now, junk);
      LeadsKeeps(n, ss, now, RecvRreq(n, routing, m, gw, radio, now, junk).0);
    } else if m.flow.src != n.me {
      var ss := RecvRrepSteps(n, m, radio.Some?, now, junk);
      LeadsKeeps(n, ss, now, RecvRrep(n, m, S.NULL_IP, radio.Some?, now, junk).0);
    }
  }
}
