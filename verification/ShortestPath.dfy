/** Shortest paths: in a network whose links do not change and lose no request, a flood that has died out has given
    every node within reach a shortest route. */
module ShortestPath {
  import opened Types
  import opened Metrics
  import opened Network
  import LF = LoopFreedom

  /** The nodes that hear a node's broadcasts. */
  type Graph = map<Ip, seq<Ip>>

  function Hearers(g: Graph, n: Ip): seq<Ip> {
    if n in g then g[n] else []
  }

  /** One flood: the flow it is for, and its id. It installs routes to `flow.src`. */
  datatype Flood = Flood(flow: Key, id: nat)

  /** A walk of `k` hops leads from the source of the flood to `n`, and the destination does not relay. */
  ghost predicate Reach(g: Graph, f: Flood, n: Ip, k: nat)
    decreases k
  {
    if k == 0 then n == f.flow.src
    else exists p: Ip :: n in Hearers(g, p) && p != f.flow.dst && Reach(g, f, p, k - 1)
  }

  /** How many hops from the source the flood is taken up: one more at the destination, which need not pass it on. */
  function Limit(f: Flood, n: Ip): nat {
    if n == f.flow.dst then NET_DIAMETER else NET_DIAMETER - 1
  }

  ghost predicate Distance(g: Graph, f: Flood, n: Ip, d: nat) {
    Reach(g, f, n, d) && forall k: nat :: k < d ==> !Reach(g, f, n, k)
  }

  // ---- Steps ----

  /** A step of a network of fixed links: broadcasts reach exactly the hearers, no request is lost or learned on a
      route of the receiver's own making, and no route removed. Floods for other flows, and replies, go on at the same
      time; replies may be lost. */
  ghost predicate FixedStep(g: Graph, net: Net, net': Net, step: Step) {
    && NextStep(net, net', step) && !step.StepRemove?
    && (step.StepLose? || step.StepOwn? ==> net.flight[step.i].Rrep?)
    && (step.StepOriginate? ==> step.audience == Hearers(g, step.flow.src))
    && (step.StepRecvRreq? ==> step.audience == Hearers(g, net.flight[step.i].to))
  }

  // ---- Invariant of one flood ----

  predicate IsCopy(f: Flood, c: Msg) {
    c.Rreq? && c.flow == f.flow && c.id == f.id
  }

  predicate HasRoute(f: Flood, net: Net, n: Ip) {
    (n, Reverse(f.flow)) in net.tables && net.tables[(n, Reverse(f.flow))].id == f.id
  }

  function RouteOf(f: Flood, net: Net, n: Ip): Entry
    requires HasRoute(f, net, n)
  {
    net.tables[(n, Reverse(f.flow))]
  }

  ghost predicate CopySound(g: Graph, f: Flood, c: Msg) {
    c.Rreq? && c.to in Hearers(g, c.from) && c.from != f.flow.dst && Reach(g, f, c.from, c.hops)
  }

  /** Every route of the flood is as long as some walk through its next hop, and no longer than the flood lives. */
  ghost predicate RouteSound(g: Graph, f: Flood, n: Ip, e: Entry) {
    && n in Hearers(g, e.nextHop) && e.nextHop != f.flow.dst
    && 1 <= e.metric <= Limit(f, n)
    && Reach(g, f, e.nextHop, e.metric - 1)
  }

  ghost predicate Sound(g: Graph, f: Flood, net: Net) {
    && (forall c :: c in net.flight && IsCopy(f, c) ==> CopySound(g, f, c))
    && (forall n: Ip :: HasRoute(f, net, n) ==> RouteSound(g, f, n, RouteOf(f, net, n)))
  }

  /** What a node is owed by a sender `h` hops from the source: a copy is on its way to it, or it has a route at
      least as good as that copy would bring, or the copy would bring nothing. */
  ghost predicate Owed(f: Flood, net: Net, v: Ip, h: nat) {
    Settled(f, net, v, h) || exists c :: c in net.flight && IsCopy(f, c) && c.to == v && c.hops == h
  }

  predicate Settled(f: Flood, net: Net, v: Ip, h: nat) {
    || v == f.flow.src
    || (v != f.flow.dst && h >= NET_DIAMETER - 1)
    || ((v, Reverse(f.flow)) in net.tables
        && AtLeast(net.tables[(v, Reverse(f.flow))].id, net.tables[(v, Reverse(f.flow))].metric, f.id, h + 1))
  }

  ghost predicate Complete(g: Graph, f: Flood, net: Net) {
    && (forall v :: v in Hearers(g, f.flow.src) ==> Owed(f, net, v, 0))
    && (forall u: Ip, v: Ip :: HasRoute(f, net, u) && u != f.flow.dst && v in Hearers(g, u) ==>
          Owed(f, net, v, RouteOf(f, net, u).metric))
  }

  ghost predicate FloodInv(g: Graph, f: Flood, net: Net) {
    && Inv(net) && net.routing == Hops && f.flow.src != f.flow.dst
    && (f.flow.src, f.id) in net.issued && net.issued[(f.flow.src, f.id)] == Issue(Reverse(f.flow), true)
    && Sound(g, f, net) && Complete(g, f, net)
  }

  // ---- The flood starts ----

  lemma {:induction false} StartInv(g: Graph, net: Net, flow: Key)
    requires Inv(net) && net.routing == Hops && flow.src != flow.dst && flow.src !in Hearers(g, flow.src)
    ensures FloodInv(g, Flood(flow, SeqNo(net, flow.src) + 1), Originate(net, flow, Hearers(g, flow.src)))
  {
    var f := Flood(flow, SeqNo(net, flow.src) + 1);
    var heard := Hearers(g, flow.src);
    var net' := Originate(net, flow, heard);
    LF.OriginateInv(net, flow, heard);
    var copies := Broadcast(flow.src, heard, NET_DIAMETER, flow, f.id, 0, 0);
    forall n: Ip | (n, Reverse(flow)) in net.tables
      ensures !HasRoute(f, net', n)
    {
      assert EntryOk(net, n, Reverse(flow));
    }
    forall c | c in net.flight
      ensures !IsCopy(f, c)
    {
      assert MsgOk(net, c);
    }
    forall c | c in net'.flight && IsCopy(f, c)
      ensures CopySound(g, f, c)
    {
      assert c in copies;
    }
    forall v | v in heard
      ensures Owed(f, net', v, 0)
    {
      var i :| 0 <= i < |heard| && heard[i] == v;
      assert copies[i] in net'.flight && IsCopy(f, copies[i]);
    }
  }

  // ---- Steps that do not concern the flood ----

  ghost predicate Unconcerned(f: Flood, net: Net, net': Net) {
    && (forall n: Ip, k: Key :: (n, k) in net.tables ==> LF.BetterEntry(net, net', n, k))
    && (forall c :: IsCopy(f, c) ==> (c in net.flight <==> c in net'.flight))
    && (forall n: Ip :: HasRoute(f, net', n) ==> HasRoute(f, net, n) && RouteOf(f, net', n) == RouteOf(f, net, n))
  }

  lemma SettledKept(f: Flood, net: Net, net': Net, v: Ip, h: nat)
    requires forall n: Ip, k: Key :: (n, k) in net.tables ==> LF.BetterEntry(net, net', n, k)
    requires Settled(f, net, v, h)
    ensures Settled(f, net', v, h)
  {
    if (v, Reverse(f.flow)) in net.tables {
      assert LF.BetterEntry(net, net', v, Reverse(f.flow));
    }
  }

  lemma UnconcernedKeeps(g: Graph, f: Flood, net: Net, net': Net)
    requires Unconcerned(f, net, net') && Sound(g, f, net) && Complete(g, f, net)
    ensures Sound(g, f, net') && Complete(g, f, net')
  {
    forall v: Ip, h: nat | Owed(f, net, v, h)
      ensures Owed(f, net', v, h)
    {
      if Settled(f, net, v, h) {
        SettledKept(f, net, net', v, h);
      }
    }
  }

  lemma DropImproves(net: Net, i: nat)
    requires i < |net.flight|
    ensures forall n: Ip, k: Key :: (n, k) in net.tables ==> LF.BetterEntry(net, Drop(net, i), n, k)
    ensures forall c :: c in net.flight && c != net.flight[i] ==> c in Drop(net, i).flight
    ensures forall c :: c in Drop(net, i).flight ==> c in net.flight
  {
    var rest := Drop(net, i).flight;
    forall c | c in net.flight && c != net.flight[i]
      ensures c in rest
    {
      var j :| 0 <= j < |net.flight| && net.flight[j] == c;
      assert rest[if j < i then j else j - 1] == c;
    }
  }

  /** A reply or another flood, delivered, lost or sent, does not concern this flood. */
  lemma OtherUnconcerned(g: Graph, f: Flood, net: Net, net': Net, step: Step)
    requires FloodInv(g, f, net) && FixedStep(g, net, net', step) && !step.StepRecvRreq?
    ensures Unconcerned(f, net, net')
  {
    match step
    case StepOriginate(flow, audience) =>
      OriginateUnconcerned(g, f, net, flow, audience);
    case StepReply(flow) =>
    case StepLose(i) =>
      DropImproves(net, i);
    case StepOwn(i, _) =>
      DropImproves(net, i);
    case StepOwnReply(_, _) =>
    case StepSkip(_) =>
    case StepRecvRrep(i, rk, sk) =>
      RrepUnconcerned(g, f, net, net', i, rk, sk);
  }

  lemma OriginateUnconcerned(g: Graph, f: Flood, net: Net, flow: Key, audience: seq<Ip>)
    requires FloodInv(g, f, net)
    ensures Unconcerned(f, net, Originate(net, flow, audience))
  {
    var copies := Broadcast(flow.src, audience, NET_DIAMETER, flow, SeqNo(net, flow.src) + 1, 0, 0);
    forall c | c in copies
      ensures !IsCopy(f, c)
    {
      assert IssuedInPast(net);
    }
  }

  lemma RrepUnconcerned(g: Graph, f: Flood, net: Net, net': Net, i: nat, rk: Hit, sk: Hit)
    requires FloodInv(g, f, net) && RecvRrep(net, net', i, rk, sk)
    ensures Unconcerned(f, net, net')
  {
    var m := net.flight[i];
    LF.InvMsg(net, i);
    LF.RrepOutcome(net, net', i, rk, sk);
    hide RecvRrep, Sub32, LF.Taken, Inv, Sound, Complete;
    DropImproves(net, i);
    if m.to == m.flow.src {
      ReplyUnconcerned(g, f, net, i, m.path, []);
    } else {
      match rk
      case Miss =>
      case Near => ReplyUnconcerned(g, f, net, i, Sub32(m.path, 1), []);
      case Hit(k) =>
        LF.RelayIsTaken(net, net', i, rk, sk);
        var recv := net.tables[(m.to, k)];
        ReplyUnconcerned(g, f, net, i, Sub32(m.path, recv.metric), if sk.Miss? then [] else [LF.Relayed(m, recv)]);
    }
  }

  /** A route that a reply brings is not one of the flood. */
  lemma ReplyUnconcerned(g: Graph, f: Flood, net: Net, i: nat, metric: nat, copies: seq<Msg>)
    requires FloodInv(g, f, net) && i < |net.flight| && net.flight[i].Rrep? && MsgOk(net, net.flight[i])
    requires forall c :: c in copies ==> c.Rrep? && RouteKey(c) == RouteKey(net.flight[i]) && c.id == net.flight[i].id
    ensures Unconcerned(f, net, LF.Taken(net, i, metric, copies))
  {
    hide Inv, Sound, Complete;
    DropImproves(net, i);
    LF.TakenImproves(net, i, metric, copies);
    var net' := LF.Taken(net, i, metric, copies);
    forall c | IsCopy(f, c)
      ensures c in net.flight <==> c in net'.flight
    {
      assert c in net'.flight <==> c in Drop(net, i).flight || c in copies;
    }
  }

  lemma RreqUnconcerned(g: Graph, f: Flood, net: Net, i: nat, radio: Radio, audience: seq<Ip>)
    requires i < |net.flight| && net.flight[i].Rreq? && radio.link.Valid() && !IsCopy(f, net.flight[i])
    ensures Unconcerned(f, net, RecvRreq(net, i, radio, audience))
  {
    hide PathMetric;
    DropImproves(net, i);
  }

  // ---- A copy of the flood is received ----

  /** The copy is dropped only if it would bring nothing. */
  lemma CopyDropped(f: Flood, net: Net, i: nat, radio: Radio, audience: seq<Ip>)
    requires i < |net.flight| && IsCopy(f, net.flight[i]) && MsgOk(net, net.flight[i]) && radio.link.Valid()
    requires net.routing == Hops && RecvRreq(net, i, radio, audience) == Drop(net, i)
    ensures Settled(f, net, net.flight[i].to, net.flight[i].hops)
  {
    var c := net.flight[i];
    var taken := Drop(net, i).tables[(c.to, RouteKey(c)) := Entry(c.id, c.hops + 1, c.hops + 1, c.from)];
    assert taken[(c.to, RouteKey(c))] == Entry(c.id, c.hops + 1, c.hops + 1, c.from);
  }

  lemma CopyTaken(f: Flood, net: Net, i: nat, radio: Radio, audience: seq<Ip>) returns (copies: seq<Msg>)
    requires i < |net.flight| && IsCopy(f, net.flight[i]) && MsgOk(net, net.flight[i]) && radio.link.Valid()
    requires net.routing == Hops && RecvRreq(net, i, radio, audience) != Drop(net, i)
    ensures var c := net.flight[i];
      && RecvRreq(net, i, radio, audience) == LF.Taken(net, i, c.hops + 1, copies)
      && Accepts(net, c.to, RouteKey(c), c.id, c.hops + 1)
      && c.to != f.flow.src && c.hops + 1 <= Limit(f, c.to)
      && copies == if c.to == f.flow.dst then []
                   else Broadcast(c.to, audience, c.ttl - 1, c.flow, c.id, c.hops + 1, c.hops + 1)
  {
    var c := net.flight[i];
    copies := if c.to == f.flow.dst then []
              else Broadcast(c.to, audience, c.ttl - 1, c.flow, c.id, c.hops + 1, c.hops + 1);
    assert Drop(net, i).flight + [] == Drop(net, i).flight;
  }

  /** Who was owed something is still owed it, except that what was received is settled now. */
  lemma OwedAfter(f: Flood, net: Net, net': Net, i: nat, v: Ip, h: nat)
    requires i < |net.flight| && IsCopy(f, net.flight[i])
    requires forall n: Ip, k: Key :: (n, k) in net.tables ==> LF.BetterEntry(net, net', n, k)
    requires forall c :: c in net.flight && c != net.flight[i] ==> c in net'.flight
    requires Settled(f, net', net.flight[i].to, net.flight[i].hops)
    requires Owed(f, net, v, h)
    ensures Owed(f, net', v, h)
  {
    if Settled(f, net, v, h) {
      SettledKept(f, net, net', v, h);
    } else {
      var c :| c in net.flight && IsCopy(f, c) && c.to == v && c.hops == h;
      assert c != net.flight[i] ==> c in net'.flight;
    }
  }

  lemma DroppedKeeps(g: Graph, f: Flood, net: Net, i: nat)
    requires i < |net.flight| && IsCopy(f, net.flight[i])
    requires Settled(f, net, net.flight[i].to, net.flight[i].hops)
    requires Sound(g, f, net) && Complete(g, f, net)
    ensures Sound(g, f, Drop(net, i)) && Complete(g, f, Drop(net, i))
  {
    var net' := Drop(net, i);
    DropImproves(net, i);
    forall v: Ip, h: nat | Owed(f, net, v, h)
      ensures Owed(f, net', v, h)
    {
      OwedAfter(f, net, net', i, v, h);
    }
    forall n: Ip | HasRoute(f, net', n)
      ensures RouteSound(g, f, n, RouteOf(f, net', n))
    {
      assert HasRoute(f, net, n);
    }
  }

  lemma TakenSound(g: Graph, f: Flood, net: Net, i: nat, audience: seq<Ip>, copies: seq<Msg>)
    requires i < |net.flight| && IsCopy(f, net.flight[i]) && Sound(g, f, net)
    requires net.flight[i].to != f.flow.dst ==> net.flight[i].ttl >= 1
    requires var c := net.flight[i];
      && audience == Hearers(g, c.to)
      && c.hops + 1 <= Limit(f, c.to)
      && copies == if c.to == f.flow.dst then []
                   else Broadcast(c.to, audience, c.ttl - 1, c.flow, c.id, c.hops + 1, c.hops + 1)
    ensures Sound(g, f, LF.Taken(net, i, net.flight[i].hops + 1, copies))
  {
    var c := net.flight[i];
    var net' := LF.Taken(net, i, c.hops + 1, copies);
    assert CopySound(g, f, c);
    DropImproves(net, i);
    assert c.to != f.flow.dst ==> Reach(g, f, c.to, c.hops + 1);
    forall m | m in net'.flight && IsCopy(f, m)
      ensures CopySound(g, f, m)
    {
      assert m in Drop(net, i).flight || m in copies;
    }
    forall n: Ip | HasRoute(f, net', n)
      ensures RouteSound(g, f, n, RouteOf(f, net', n))
    {
      if RouteOf(f, net', n) == Entry(c.id, c.hops + 1, (c.hops + 1) % U8, c.from) && n == c.to {
        assert RouteSound(g, f, n, RouteOf(f, net', n));
      } else {
        assert HasRoute(f, net, n) && RouteOf(f, net', n) == RouteOf(f, net, n);
      }
    }
  }

  lemma TakenComplete(g: Graph, f: Flood, net: Net, i: nat, audience: seq<Ip>, copies: seq<Msg>)
    requires i < |net.flight| && IsCopy(f, net.flight[i]) && Complete(g, f, net)
    requires var c := net.flight[i];
      && audience == Hearers(g, c.to) && Accepts(net, c.to, RouteKey(c), c.id, c.hops + 1)
      && (c.to != f.flow.dst ==> c.ttl > 1)
      && copies == if c.to == f.flow.dst then []
                   else Broadcast(c.to, audience, c.ttl - 1, c.flow, c.id, c.hops + 1, c.hops + 1)
    ensures Complete(g, f, LF.Taken(net, i, net.flight[i].hops + 1, copies))
  {
    var c := net.flight[i];
    var net' := LF.Taken(net, i, c.hops + 1, copies);
    DropImproves(net, i);
    LF.TakenImproves(net, i, c.hops + 1, copies);
    forall v: Ip, h: nat | Owed(f, net, v, h)
      ensures Owed(f, net', v, h)
    {
      OwedAfter(f, net, net', i, v, h);
    }
    forall v | v in Hearers(g, c.to) && c.to != f.flow.dst
      ensures Owed(f, net', v, c.hops + 1)
    {
      var j :| 0 <= j < |audience| && audience[j] == v;
      assert copies[j] in net'.flight && IsCopy(f, copies[j]);
    }
    forall u: Ip, v: Ip | HasRoute(f, net', u) && u != f.flow.dst && v in Hearers(g, u)
      ensures Owed(f, net', v, RouteOf(f, net', u).metric)
    {
      if u != c.to {
        assert HasRoute(f, net, u) && RouteOf(f, net', u) == RouteOf(f, net, u);
      }
    }
  }

  lemma {:induction false} CopyKeeps(g: Graph, f: Flood, net: Net, i: nat, radio: Radio)
    requires FloodInv(g, f, net) && i < |net.flight| && IsCopy(f, net.flight[i]) && radio.link.Valid()
    ensures Sound(g, f, RecvRreq(net, i, radio, Hearers(g, net.flight[i].to)))
    ensures Complete(g, f, RecvRreq(net, i, radio, Hearers(g, net.flight[i].to)))
  {
    assert MsgOk(net, net.flight[i]);
    var audience := Hearers(g, net.flight[i].to);
    hide Inv, Sound, Complete, RecvRreq;
    if RecvRreq(net, i, radio, audience) == Drop(net, i) {
      CopyDropped(f, net, i, radio, audience);
      DroppedKeeps(g, f, net, i);
    } else {
      var copies := CopyTaken(f, net, i, radio, audience);
      TakenSound(g, f, net, i, audience, copies);
      TakenComplete(g, f, net, i, audience, copies);
    }
  }

  /** Every step keeps the invariant of every flood that has started. */
  lemma FixedStepKeeps(g: Graph, f: Flood, net: Net, net': Net, step: Step)
    requires FloodInv(g, f, net) && FixedStep(g, net, net', step)
    ensures FloodInv(g, f, net')
  {
    LF.StepInv(net, net', step);
    IssueKept(g, f, net, net', step);
    hide Inv, Sound, Complete, RecvRreq, RecvRrep;
    if step.StepRecvRreq? && IsCopy(f, net.flight[step.i]) {
      CopyKeeps(g, f, net, step.i, step.radio);
    } else {
      if step.StepRecvRreq? {
        RreqUnconcerned(g, f, net, step.i, step.radio, step.audience);
      } else {
        OtherUnconcerned(g, f, net, net', step);
      }
      UnconcernedKeeps(g, f, net, net');
    }
  }

  lemma IssueKept(g: Graph, f: Flood, net: Net, net': Net, step: Step)
    requires FloodInv(g, f, net) && FixedStep(g, net, net', step)
    ensures net'.routing == net.routing
    ensures (f.flow.src, f.id) in net'.issued && net'.issued[(f.flow.src, f.id)] == Issue(Reverse(f.flow), true)
  {
    hide Sound, Complete, FoundById;
    assert f.id <= SeqNo(net, f.flow.src);
  }

  // ---- The flood has died out ----

  /** No copy of the flood is left, and no node has a newer route. */
  ghost predicate Over(f: Flood, net: Net) {
    && (forall c :: c in net.flight ==> !IsCopy(f, c))
    && (forall n: Ip :: (n, Reverse(f.flow)) in net.tables ==> net.tables[(n, Reverse(f.flow))].id <= f.id)
  }

  /** As far as the flood lives, every node has a route no longer than any walk to it. */
  lemma {:induction false} NoLongerThanWalk(g: Graph, f: Flood, net: Net, n: Ip, k: nat)
    requires FloodInv(g, f, net) && Over(f, net)
    requires Reach(g, f, n, k) && n != f.flow.src
    requires k <= Limit(f, n)
    ensures HasRoute(f, net, n) && RouteOf(f, net, n).metric <= k
    decreases k
  {
    hide Inv, Sound;
    var p: Ip :| n in Hearers(g, p) && p != f.flow.dst && Reach(g, f, p, k - 1);
    if p == f.flow.src {
      assert Owed(f, net, n, 0);
    } else {
      NoLongerThanWalk(g, f, net, p, k - 1);
      assert Owed(f, net, n, RouteOf(f, net, p).metric);
    }
  }

  /** When the flood is over a node has a route exactly if some walk that the flood can follow leads to it; and then
      the route is a shortest one, through a node that is one hop nearer. */
  lemma ShortestRoutes(g: Graph, f: Flood, net: Net, n: Ip)
    requires FloodInv(g, f, net) && Over(f, net) && n != f.flow.src
    ensures HasRoute(f, net, n) <==> exists k: nat :: k <= Limit(f, n) && Reach(g, f, n, k)
    ensures HasRoute(f, net, n) ==>
      var e := RouteOf(f, net, n);
      && e.metric >= 1 && Distance(g, f, n, e.metric)
      && n in Hearers(g, e.nextHop) && Distance(g, f, e.nextHop, e.metric - 1)
  {
    hide Complete;
    if k: nat :| k <= Limit(f, n) && Reach(g, f, n, k) {
      NoLongerThanWalk(g, f, net, n, k);
    }
    if HasRoute(f, net, n) {
      var e := RouteOf(f, net, n);
      assert RouteSound(g, f, n, e);
      hide Inv, Over, FloodInv;
      assert Reach(g, f, n, e.metric);
      forall k: nat | k < e.metric
        ensures !Reach(g, f, n, k)
      {
        if Reach(g, f, n, k) {
          NoLongerThanWalk(g, f, net, n, k);
        }
      }
      forall k: nat | k < e.metric - 1
        ensures !Reach(g, f, e.nextHop, k)
      {
        assert !Reach(g, f, n, k + 1);
      }
    }
  }

  // ---- Runs ----

  /** A run of a network of fixed links that begins when a flood starts. */
  ghost predicate FloodRun(g: Graph, flow: Key, nets: seq<Net>, steps: seq<Step>) {
    && |nets| == |steps| + 1 && |steps| >= 1
    && steps[0] == StepOriginate(flow, Hearers(g, flow.src))
    && forall i :: 0 <= i < |steps| ==> FixedStep(g, nets[i], nets[i + 1], steps[i])
  }

  lemma {:induction false} FloodRunInv(g: Graph, flow: Key, nets: seq<Net>, steps: seq<Step>, i: nat)
    requires FloodRun(g, flow, nets, steps) && Inv(nets[0]) && nets[0].routing == Hops
    requires 1 <= i < |nets|
    ensures FloodInv(g, Flood(flow, SeqNo(nets[0], flow.src) + 1), nets[i])
  {
    hide Inv, FloodInv;
    assert FixedStep(g, nets[i - 1], nets[i], steps[i - 1]);
    if i == 1 {
      StartInv(g, nets[0], flow);
    } else {
      hide FixedStep;
      FloodRunInv(g, flow, nets, steps, i - 1);
      FixedStepKeeps(g, Flood(flow, SeqNo(nets[0], flow.src) + 1), nets[i - 1], nets[i], steps[i - 1]);
    }
  }

  /** Start a flood in any reachable state of a network that counts hops. Whatever else goes on, once its copies are
      gone and as long as no newer route is known, exactly the nodes within reach have a route, and next hops lead each
      of them back to the source by a shortest way. */
  lemma Converges(g: Graph, flow: Key, before: seq<Net>, past: seq<Step>, nets: seq<Net>, steps: seq<Step>, n: Ip)
    requires FloodRun(g, flow, nets, steps) && nets[0].routing == Hops
    requires LF.Run(before, past) && before[|past|] == nets[0]
    requires Over(Flood(flow, SeqNo(nets[0], flow.src) + 1), nets[|steps|]) && n != flow.src
    ensures var f := Flood(flow, SeqNo(nets[0], flow.src) + 1);
      var net := nets[|steps|];
      && (HasRoute(f, net, n) <==> exists k: nat :: k <= Limit(f, n) && Reach(g, f, n, k))
      && (HasRoute(f, net, n) ==>
            var e := RouteOf(f, net, n);
            && e.metric >= 1 && Distance(g, f, n, e.metric)
            && n in Hearers(g, e.nextHop) && Distance(g, f, e.nextHop, e.metric - 1))
  {
    var f := Flood(flow, SeqNo(nets[0], flow.src) + 1);
    assert |nets| == |steps| + 1 && |before| == |past| + 1;
    hide Inv, FloodInv, Over, Distance, FloodRun, LF.Run;
    LF.RunInv(before, past, |past|);
    FloodRunInv(g, flow, nets, steps, |steps|);
    ShortestRoutes(g, f, nets[|steps|], n);
  }
}
