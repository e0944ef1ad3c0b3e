/** Route discovery on one node: a packet without a route is held and a request task queued (packet_out.c); the task
    floods a request and sets a timer, the timer becomes a task again, and that floods once more or gives up
    (rreq.c); a reply sends the held packets on (rrep.c). */
module Discovery {
  import opened Types
  import opened TaskQueues
  import opened TimerQueues
  import opened PacketQueues
  import R = Routing
  import T = RouteTables
  import S = SourceLists

  /** A flooded request. It starts with a TTL of the network diameter, no hops and a metric of zero. */
  datatype Request = Request(flow: Key, id: nat)

  /** The state that discovery works on: the routing tables, the two queues of tasks and the held packets. `log`,
      `floods` and `drops` record the reinjected packets, the requests sent and the calls of `ipq_drop_ip`. */
  datatype Node = Node(me: Ip, gateway: bool, internal: set<Ip>, room: nat,
                       seqNo: nat, tables: R.Tables, tasks: seq<TaskInfo>, timers: seq<TaskInfo>, held: seq<Packet>,
                       log: seq<(Packet, Verdict)>, floods: seq<Request>, drops: seq<Key>)

  // ---- Handlers ----

  datatype Decision = Pass | Hold | Discard

  /** Addresses outside the mesh all count as one. */
  function Mapped(n: Node, ip: Ip): Ip {
    if ip in n.internal then ip else S.NULL_IP
  }

  function FlowOf(n: Node, p: Packet): Key {
    Key(Mapped(n, p.flow.src), Mapped(n, p.flow.dst), p.flow.tos)
  }

  function GenTask(key: Key, now: nat): TaskInfo {
    TaskInfo(TASK_GEN_RREQ, now, key.src, key.dst, key.tos, 0, 0)
  }

  /** What `output_handler` decides. Signalling and broadcasts pass, and so does what is not the mesh's to route. */
  function Decide(n: Node, p: Packet, signalling: bool): Decision {
    var flow := FlowOf(n, p);
    var k := T.Find(n.tables.routes, flow);
    if signalling || flow.src == flow.dst then Pass
    else if k < |n.tables.routes| && n.tables.routes[k].state != T.Invalid then Pass
    else if R.IsSource(flow.src, n.me, n.gateway) then Hold
    else if flow.dst == S.NULL_IP && n.gateway then Pass
    else Discard
  }

  /** `output_handler`, and the queue taking in the packet if it is to be held and there is room. */
  function Output(n: Node, p: Packet, signalling: bool, now: nat): Node {
    var flow := FlowOf(n, p);
    match Decide(n, p, signalling)
    case Hold =>
      n.(tasks := [GenTask(flow, now)] + n.tasks, held := if |n.held| < n.room then n.held + [p] else n.held)
    case Pass =>
      if signalling || flow.src == flow.dst then n
      else n.(tables := R.Used(n.tables, T.Find(n.tables.routes, flow), now))
    case Discard => n
  }

  /** Sends a request with a new id and sets the timer for the next. */
  function Flood(n: Node, key: Key, retries: nat, now: nat): Node {
    n.(seqNo := n.seqNo + 1,
       floods := n.floods + [Request(key, n.seqNo + 1)],
       timers := InsertTimer(n.timers, DirectionalTimer(TASK_RESEND_RREQ, 0, retries, key, now)))
  }

  /** All held packets of a flow leave with the same verdict. */
  function Release(n: Node, key: Key, v: Verdict): Node {
    n.(held := Picked(n.held, ByFlow(key), false), log := n.log + Judged(Picked(n.held, ByFlow(key), true), v))
  }

  /** `gen_rreq`. */
  function GenRreq(n: Node, key: Key, now: nat): Node {
    Flood(n, key, RREQ_RETRIES, now)
  }

  /** `resend_rreq`. */
  function ResendRreq(n: Node, key: Key, retries: nat, now: nat): Node {
    if retries == 0 then Release(n, key, Drop).(drops := n.drops + [key])
    else Flood(n, key, retries - 1, now)
  }

  /** The daemon serves one task. Tasks of other kinds do not concern discovery. */
  function Serve(n: Node, now: nat): Node {
    if n.tasks == [] then n
    else
      var x := n.tasks[Served(n.tasks)];
      var rest := n.(tasks := RemoveAt(n.tasks, Served(n.tasks)));
      if x.kind == TASK_GEN_RREQ then GenRreq(rest, x.FlowKey(), now)
      else if x.kind == TASK_RESEND_RREQ then ResendRreq(rest, x.FlowKey(), x.retries, now)
      else rest
  }

  /** `timer_queue_signal`. */
  function Signal(n: Node, now: nat): Node {
    var due := Due(n.timers, now);
    n.(tasks := n.tasks + n.timers[..due], timers := n.timers[due..])
  }

  /** `rrep_aodv_route`: the route is confirmed and the packets held for it are sent on. */
  function Confirm(n: Node, k: nat, now: nat): Node {
    var (tables, ok) := R.Confirm(n.tables, k, now);
    if ok then Release(n.(tables := tables), tables.routes[k].key, Accept) else n
  }

  function LastHop(n: Node, k: nat, hop: Ip, now: nat): Node {
    n.(tables := R.After(n.tables, n.me, R.EventLastHop(k, hop), now))
  }

  /** The route at position `k` is confirmed and its previous hop noted. */
  function Settled(n: Node, k: nat, hop: Ip, now: nat): Node {
    LastHop(Confirm(n, k, now), k, hop, now)
  }

  /** The route that a reply leads to, once it has been learned. */
  function RouteAfter(n: Node, news: R.News, now: nat, junk: nat): nat {
    T.FindById(R.Learn(n.tables, n.me, news, now, junk).0.routes, news.key.dst, news.id)
  }

  /** `recv_rrep` at the source of the flow. The timer is deleted before the route is looked for. */
  function RecvRrep(n: Node, news: R.News, now: nat, junk: nat): Node {
    var learned := n.(tables := R.Learn(n.tables, n.me, news, now, junk).0,
                      timers := WithoutTimer(n.timers, news.key, TASK_RESEND_RREQ));
    var k := RouteAfter(n, news, now, junk);
    if k == |learned.tables.routes| then learned
    else
      Settled(learned, k, n.me, now)
  }

  /** The same with the two actions the other way round: the timer is deleted only once the route is confirmed. */
  function Answer(n: Node, news: R.News, now: nat, junk: nat): Node {
    var learned := n.(tables := R.Learn(n.tables, n.me, news, now, junk).0);
    var k := RouteAfter(n, news, now, junk);
    if k < |learned.tables.routes| && R.Confirm(learned.tables, k, now).1 then
      Confirm(learned, k, now).(timers := WithoutTimer(n.timers, news.key, TASK_RESEND_RREQ))
    else learned
  }

  // ---- Steps ----

  datatype Step =
    | StepOutput(p: Packet, signalling: bool)
    | StepServe
    | StepSignal
    | StepRrep(news: R.News, junk: nat)
    | StepAnswer(news: R.News, junk: nat)
    | StepConfirm(k: nat)
    | StepTables(e: R.Event)
    | StepGenRreq(key: Key)
    | StepQueue(x: TaskInfo)
    | StepTimer(x: TaskInfo)
    | StepDelete(key: Key, kind: int)
    | StepNumber
    | StepDevice(ifindex: int)

  predicate IsDiscovery(x: TaskInfo) {
    OfDiscovery(x.kind)
  }

  predicate OfDiscovery(kind: int) {
    kind == TASK_GEN_RREQ || kind == TASK_RESEND_RREQ
  }

  /** The steps a node takes. Replies are those for its own flows, handled in either order; the confirmations made for
      the flows of others are steps of their own; tasks and timers of other kinds come and go elsewhere, and so do the
      numbers for replies. */
  predicate Enabled(n: Node, s: Step) {
    match s
    case StepRrep(news, _) => news.key.src == n.me
    case StepAnswer(news, _) => news.key.src == n.me
    case StepTables(e) => !e.EventConfirm?
    case StepQueue(x) => !IsDiscovery(x)
    case StepTimer(x) => !IsDiscovery(x)
    case StepDelete(_, kind) => !OfDiscovery(kind)
    case _ => true
  }

  function After(n: Node, s: Step, now: nat): Node {
    match s
    case StepOutput(p, signalling) => Output(n, p, signalling, now)
    case StepServe => Serve(n, now)
    case StepSignal => Signal(n, now)
    case StepRrep(news, junk) => RecvRrep(n, news, now, junk)
    case StepAnswer(news, junk) => Answer(n, news, now, junk)
    case StepConfirm(k) => Confirm(n, k, now)
    case StepTables(e) => n.(tables := R.After(n.tables, n.me, e, now))
    case StepGenRreq(key) => GenRreq(n, key, now)
    case StepQueue(x) => n.(tasks := n.tasks + [x])
    case StepTimer(x) => n.(timers := InsertTimer(n.timers, x))
    case StepDelete(key, kind) => n.(timers := WithoutTimer(n.timers, key, kind))
    case StepNumber => n.(seqNo := n.seqNo + 1)
    case StepDevice(ifindex) =>
      n.(held := Picked(n.held, ByDevice(ifindex), false),
         log := n.log + Judged(Picked(n.held, ByDevice(ifindex), true), Drop))
  }

  // ---- What is pending for a flow ----

  predicate Discovers(x: TaskInfo, key: Key) {
    IsDiscovery(x) && x.FlowKey() == key
  }

  /** How many more requests a task or timer will send, or how many times it will give up. */
  function Yield(x: TaskInfo, key: Key, drops: bool): nat {
    if !Discovers(x, key) then 0
    else if drops then 1
    else if x.kind == TASK_GEN_RREQ then 1 + RREQ_RETRIES
    else x.retries
  }

  function Total(q: seq<TaskInfo>, key: Key, drops: bool): nat {
    if q == [] then 0 else Total(q[..|q| - 1], key, drops) + Yield(q[|q| - 1], key, drops)
  }

  /** The requests, or the drops, still to come for a flow, wherever the tasks and timers are. */
  function Ahead(n: Node, key: Key, drops: bool): nat {
    Total(n.tasks, key, drops) + Total(n.timers, key, drops)
  }

  /** The steps of work left for a flow. */
  function Work(n: Node, key: Key): nat {
    Ahead(n, key, false) + Ahead(n, key, true)
  }

  function CountFloods(fs: seq<Request>, key: Key): nat {
    if fs == [] then 0 else CountFloods(fs[..|fs| - 1], key) + (if fs[|fs| - 1].flow == key then 1 else 0)
  }

  function CountDrops(ks: seq<Key>, key: Key): nat {
    if ks == [] then 0 else CountDrops(ks[..|ks| - 1], key) + (if ks[|ks| - 1] == key then 1 else 0)
  }

  /** The requests sent, or the drops made, so far. */
  function Done(n: Node, key: Key, drops: bool): nat {
    if drops then CountDrops(n.drops, key) else CountFloods(n.floods, key)
  }

  lemma {:induction false} TotalSum(a: seq<TaskInfo>, b: seq<TaskInfo>, key: Key, drops: bool)
    ensures Total(a + b, key, drops) == Total(a, key, drops) + Total(b, key, drops)
  {
    if b == [] {
      assert a + b == a;
    } else {
      assert (a + b)[..|a + b| - 1] == a + b[..|b| - 1];
      TotalSum(a, b[..|b| - 1], key, drops);
    }
  }

  lemma TotalOne(x: TaskInfo, key: Key, drops: bool)
    ensures Total([x], key, drops) == Yield(x, key, drops)
  {
    assert [x][..0] == [];
  }

  lemma TotalSplice(a: seq<TaskInfo>, x: TaskInfo, b: seq<TaskInfo>, key: Key, drops: bool)
    ensures Total(a + [x] + b, key, drops) == Total(a + b, key, drops) + Yield(x, key, drops)
  {
    TotalSum(a, [x], key, drops);
    TotalSum(a + [x], b, key, drops);
    TotalSum(a, b, key, drops);
    TotalOne(x, key, drops);
  }

  lemma TotalWithout(q: seq<TaskInfo>, i: nat, key: Key, drops: bool)
    requires i < |q|
    ensures Total(q, key, drops) == Total(RemoveAt(q, i), key, drops) + Yield(q[i], key, drops)
  {
    TotalSplice(q[..i], q[i], q[i + 1..], key, drops);
    assert q == q[..i] + [q[i]] + q[i + 1..];
  }

  lemma TotalWith(q: seq<TaskInfo>, i: nat, x: TaskInfo, key: Key, drops: bool)
    requires i <= |q|
    ensures Total(InsertAt(q, i, x), key, drops) == Total(q, key, drops) + Yield(x, key, drops)
  {
    TotalSplice(q[..i], x, q[i..], key, drops);
    assert q == q[..i] + q[i..];
  }

  /** Something is pending for a flow exactly when a task or timer of its discovery is. */
  lemma {:induction false} TotalPositive(q: seq<TaskInfo>, key: Key)
    ensures Total(q, key, true) > 0 <==> exists x :: x in q && Discovers(x, key)
  {
    if q != [] {
      TotalPositive(q[..|q| - 1], key);
      assert forall x :: x in q <==> x in q[..|q| - 1] || x == q[|q| - 1];
    }
  }

  // ---- Every discovery comes to an end ----

  /** The step neither starts a discovery of the flow nor answers one. */
  predicate Quiet(n: Node, s: Step, key: Key) {
    match s
    case StepOutput(p, signalling) => Decide(n, p, signalling) != Hold || FlowOf(n, p) != key
    case StepRrep(news, _) => news.key != key
    case StepAnswer(news, _) => news.key != key
    case StepGenRreq(k) => k != key
    case _ => true
  }

  /** The step serves a task of the flow's discovery. */
  predicate Works(n: Node, s: Step, key: Key) {
    s.StepServe? && n.tasks != [] && Discovers(n.tasks[Served(n.tasks)], key)
  }

  /** What is done stays done, and with what is still to come it always adds up to the same. */
  ghost predicate Balanced(n: Node, n': Node, key: Key) {
    forall drops ::
      && Done(n', key, drops) >= Done(n, key, drops)
      && Done(n', key, drops) + Ahead(n', key, drops) == Done(n, key, drops) + Ahead(n, key, drops)
  }

  lemma CountOne(fs: seq<Request>, r: Request, ks: seq<Key>, k: Key, key: Key)
    ensures CountFloods(fs + [r], key) == CountFloods(fs, key) + (if r.flow == key then 1 else 0)
    ensures CountDrops(ks + [k], key) == CountDrops(ks, key) + (if k == key then 1 else 0)
  {
    assert (fs + [r])[..|fs|] == fs && (ks + [k])[..|ks|] == ks;
  }

  /** A flood is one request done, and one timer more. */
  lemma FloodAccount(n: Node, k: Key, retries: nat, now: nat, key: Key)
    ensures var n' := Flood(n, k, retries, now);
      && Done(n', key, false) == Done(n, key, false) + (if k == key then 1 else 0)
      && Done(n', key, true) == Done(n, key, true)
      && Ahead(n', key, false) == Ahead(n, key, false) + (if k == key then retries else 0)
      && Ahead(n', key, true) == Ahead(n, key, true) + (if k == key then 1 else 0)
      && n'.held == n.held && n'.tables == n.tables && n'.me == n.me && n'.internal == n.internal
  {
    hide Total, CountFloods, CountDrops, InsertPos;
    var x := DirectionalTimer(TASK_RESEND_RREQ, 0, retries, k, now);
    CountOne(n.floods, Request(k, n.seqNo + 1), n.drops, k, key);
    TotalWith(n.timers, InsertPos(n.timers, x.time), x, key, false);
    TotalWith(n.timers, InsertPos(n.timers, x.time), x, key, true);
  }

  lemma ServeAccount(n: Node, now: nat, key: Key)
    ensures var n' := Serve(n, now);
      && Balanced(n, n', key)
      && Work(n', key) == Work(n, key) - (if Works(n, StepServe, key) then 1 else 0)
  {
    hide Total, CountFloods, CountDrops, Served, Flood, Picked;
    if n.tasks != [] {
      var i := Served(n.tasks);
      var x := n.tasks[i];
      var rest := n.(tasks := RemoveAt(n.tasks, i));
      TotalWithout(n.tasks, i, key, false);
      TotalWithout(n.tasks, i, key, true);
      if x.kind == TASK_GEN_RREQ {
        FloodAccount(rest, x.FlowKey(), RREQ_RETRIES, now, key);
      } else if x.kind == TASK_RESEND_RREQ && x.retries > 0 {
        FloodAccount(rest, x.FlowKey(), x.retries - 1, now, key);
      } else if x.kind == TASK_RESEND_RREQ {
        CountOne(n.floods, Request(key, 0), n.drops, x.FlowKey(), key);
      }
    }
  }

  lemma OutputAccount(n: Node, p: Packet, signalling: bool, now: nat, key: Key)
    requires Decide(n, p, signalling) != Hold || FlowOf(n, p) != key
    ensures var n' := Output(n, p, signalling, now);
      n'.floods == n.floods && n'.drops == n.drops && forall drops :: Ahead(n', key, drops) == Ahead(n, key, drops)
  {
    hide Total, Decide, R.Used, T.Find;
    var x := GenTask(FlowOf(n, p), now);
    forall drops
      ensures Total([x] + n.tasks, key, drops) == Total(n.tasks, key, drops) + Yield(x, key, drops)
    {
      TotalSum([x], n.tasks, key, drops);
      TotalOne(x, key, drops);
    }
  }

  lemma OtherAccount(n: Node, x: TaskInfo, key: Key)
    requires !IsDiscovery(x)
    ensures forall drops :: Total(n.tasks + [x], key, drops) == Total(n.tasks, key, drops)
    ensures forall drops :: Total(InsertTimer(n.timers, x), key, drops) == Total(n.timers, key, drops)
  {
    hide Total, InsertPos;
    forall drops
      ensures Total(n.tasks + [x], key, drops) == Total(n.tasks, key, drops)
      ensures Total(InsertTimer(n.timers, x), key, drops) == Total(n.timers, key, drops)
    {
      TotalSum(n.tasks, [x], key, drops);
      TotalOne(x, key, drops);
      TotalWith(n.timers, InsertPos(n.timers, x.time), x, key, drops);
    }
  }

  lemma SignalAccount(n: Node, now: nat, key: Key)
    ensures forall drops :: Ahead(Signal(n, now), key, drops) == Ahead(n, key, drops)
    ensures Signal(n, now).(tasks := n.tasks, timers := n.timers) == n
  {
    hide Total, Due;
    var due := Due(n.timers, now);
    assert n.timers == n.timers[..due] + n.timers[due..];
    forall drops
      ensures Ahead(Signal(n, now), key, drops) == Ahead(n, key, drops)
    {
      TotalSum(n.tasks, n.timers[..due], key, drops);
      TotalSum(n.timers[..due], n.timers[due..], key, drops);
    }
  }

  lemma TimerDeleted(q: seq<TaskInfo>, k: Key, kind: int, key: Key, drops: bool)
    requires k != key || !OfDiscovery(kind)
    ensures Total(WithoutTimer(q, k, kind), key, drops) == Total(q, key, drops)
  {
    hide Total, FirstMatch;
    var i := FirstMatch(q, k, kind);
    if i < |q| {
      TotalWithout(q, i, key, drops);
    }
  }

  lemma RrepLeaves(n: Node, news: R.News, now: nat, junk: nat)
    ensures var n' := RecvRrep(n, news, now, junk);
      && n'.tasks == n.tasks && n'.timers == WithoutTimer(n.timers, news.key, TASK_RESEND_RREQ)
      && n'.floods == n.floods && n'.drops == n.drops && n'.me == n.me && n'.internal == n.internal
  {
    hide WithoutTimer, R.Confirm;
  }

  lemma AnswerLeaves(n: Node, news: R.News, now: nat, junk: nat)
    ensures var n' := Answer(n, news, now, junk);
      && n'.tasks == n.tasks && n'.me == n.me && n'.internal == n.internal
      && (n'.timers == n.timers || n'.timers == WithoutTimer(n.timers, news.key, TASK_RESEND_RREQ))
      && n'.floods == n.floods && n'.drops == n.drops
  {
    hide WithoutTimer, R.Confirm;
  }

  /** Without new packets for the flow and without a reply, every served task of its discovery is one step of work
      less, and no other step changes what is left: not the moves from timers to tasks, nor anything that happens to
      other flows. */
  lemma QuietStep(n: Node, s: Step, now: nat, key: Key)
    requires Enabled(n, s) && Quiet(n, s, key)
    ensures Balanced(n, After(n, s, now), key)
    ensures Work(After(n, s, now), key) == Work(n, key) - (if Works(n, s, key) then 1 else 0)
  {
    hide Total, CountFloods, CountDrops, R.Learn, R.Used, R.After, R.Confirm, Picked, Judged, T.Find, Due, InsertPos;
    hide WithoutTimer, Flood, T.FindById, Serve, Signal, Decide, RecvRrep, Answer;
    hide InsertTimer, Output;
    match s
    case StepOutput(p, signalling) => OutputAccount(n, p, signalling, now, key);
    case StepServe => ServeAccount(n, now, key);
    case StepSignal =>
      SignalAccount(n, now, key);
    case StepRrep(news, junk) =>
      RrepLeaves(n, news, now, junk);
      TimerDeleted(n.timers, news.key, TASK_RESEND_RREQ, key, false);
      TimerDeleted(n.timers, news.key, TASK_RESEND_RREQ, key, true);
    case StepAnswer(news, junk) =>
      AnswerLeaves(n, news, now, junk);
      TimerDeleted(n.timers, news.key, TASK_RESEND_RREQ, key, false);
      TimerDeleted(n.timers, news.key, TASK_RESEND_RREQ, key, true);
    case StepConfirm(k) =>
    case StepTables(e) =>
    case StepGenRreq(k) => FloodAccount(n, k, RREQ_RETRIES, now, key);
    case StepQueue(x) => OtherAccount(n, x, key);
    case StepTimer(x) => OtherAccount(n, x, key);
    case StepDelete(k, kind) =>
      TimerDeleted(n.timers, k, kind, key, false);
      TimerDeleted(n.timers, k, kind, key, true);
    case StepNumber =>
    case StepDevice(ifindex) =>
  }

  /** A run of a node, with the time of every step. */
  ghost predicate Run(ns: seq<Node>, ss: seq<Step>, clock: seq<nat>) {
    && |ns| == |ss| + 1 && |clock| == |ss|
    && forall i :: 0 <= i < |ss| ==> Enabled(ns[i], ss[i]) && ns[i + 1] == After(ns[i], ss[i], clock[i])
  }

  /** How many tasks of the flow's discovery were served. */
  function Worked(ns: seq<Node>, ss: seq<Step>, key: Key): nat
    requires |ns| == |ss| + 1
  {
    if ss == [] then 0
    else Worked(ns[..|ss|], ss[..|ss| - 1], key) + (if Works(ns[|ss| - 1], ss[|ss| - 1], key) then 1 else 0)
  }

  lemma {:induction false} QuietRun(ns: seq<Node>, ss: seq<Step>, clock: seq<nat>, key: Key)
    requires Run(ns, ss, clock)
    requires forall i :: 0 <= i < |ss| ==> Quiet(ns[i], ss[i], key)
    ensures Balanced(ns[0], ns[|ss|], key)
    ensures Work(ns[|ss|], key) + Worked(ns, ss, key) == Work(ns[0], key)
  {
    hide Work, Done, Ahead, Enabled, After, Quiet, Works;
    if ss != [] {
      var i := |ss| - 1;
      QuietRun(ns[..|ss|], ss[..i], clock[..i], key);
      QuietStep(ns[i], ss[i], clock[i], key);
    }
  }

  /** One request task, left to itself, leads to exactly three requests and then one drop of the packets held for the
      flow: the number of tasks served says how far it is. */
  lemma {:induction false} DiscoveryEnds(ns: seq<Node>, ss: seq<Step>, clock: seq<nat>, key: Key)
    requires Run(ns, ss, clock)
    requires forall i :: 0 <= i < |ss| ==> Quiet(ns[i], ss[i], key)
    requires Ahead(ns[0], key, false) == 1 + RREQ_RETRIES && Ahead(ns[0], key, true) == 1
    ensures var worked := Worked(ns, ss, key);
      var n := ns[|ss|];
      && worked <= 2 + RREQ_RETRIES
      && Done(n, key, false) - Done(ns[0], key, false)
           == (if worked <= 1 + RREQ_RETRIES then worked else 1 + RREQ_RETRIES)
      && Done(n, key, true) - Done(ns[0], key, true) == (if worked == 2 + RREQ_RETRIES then 1 else 0)
  {
    hide Ahead, Done, Worked;
    QuietRun(ns, ss, clock, key);
    var n0, n := ns[0], ns[|ss|];
    DropsLast(n, key);
    assert Done(n, key, true) >= Done(n0, key, true) && Done(n, key, false) >= Done(n0, key, false);
  }

  /** As long as requests are to come, so is the drop: every task and timer of a discovery ends in one. */
  lemma {:induction false} TotalsTogether(q: seq<TaskInfo>, key: Key)
    ensures Total(q, key, true) == 0 ==> Total(q, key, false) == 0
  {
    if q != [] {
      TotalsTogether(q[..|q| - 1], key);
    }
  }

  lemma DropsLast(n: Node, key: Key)
    ensures Ahead(n, key, true) == 0 ==> Ahead(n, key, false) == 0
  {
    TotalsTogether(n.tasks, key);
    TotalsTogether(n.timers, key);
  }

  // ---- No held packet is forgotten ----

  /** The flow starts at this node and ends inside the mesh. */
  predicate Ours(n: Node, key: Key) {
    key.src == n.me && key.src in n.internal && key.dst in n.internal
  }

  /** Every held packet of such a flow has a task or a timer that will send requests for it or give it up. */
  ghost predicate NoneStranded(n: Node) {
    forall p :: p in n.held && Ours(n, p.flow) ==> Ahead(n, p.flow, true) > 0
  }

  predicate Holds(n: Node, key: Key) {
    exists p :: p in n.held && p.flow == key
  }

  /** The node is listed as a source of its own. */
  predicate SelfListed(n: Node) {
    R.Listed(n.tables.sources, n.me)
  }

  /** For the packets of this flow the step is harmless. */
  ghost predicate Cares(n: Node, n': Node, key: Key) {
    || !Holds(n', key)
    || ((Holds(n', key) ==> Holds(n, key)) && Ahead(n', key, true) >= Ahead(n, key, true))
    || Ahead(n', key, true) > 0
  }

  lemma CaringKeeps(n: Node, n': Node)
    requires NoneStranded(n) && n'.me == n.me && n'.internal == n.internal
    requires forall key :: Ours(n, key) ==> Cares(n, n', key)
    ensures NoneStranded(n')
  {
    hide Ahead;
    forall p | p in n'.held && Ours(n', p.flow)
      ensures Ahead(n', p.flow, true) > 0
    {
      assert Cares(n, n', p.flow) && Holds(n', p.flow);
      assert Holds(n, p.flow) ==> Ahead(n, p.flow, true) > 0;
    }
  }

  lemma PickedHolds(q: seq<Packet>, c: Compare)
    ensures forall p :: p in Picked(q, c, false) ==> p in q && !c.Hits(p)
  {
    PickedSplits(q, c);
    forall p | p in Picked(q, c, false)
      ensures p in q
    {
      assert p in multiset(Picked(q, c, false));
      assert p in multiset(q);
    }
  }

  lemma OutputCares(n: Node, p: Packet, signalling: bool, now: nat, key: Key)
    requires Ours(n, key)
    ensures Cares(n, Output(n, p, signalling, now), key)
  {
    hide Total, Decide, R.Used, T.Find;
    var x := GenTask(FlowOf(n, p), now);
    TotalSum([x], n.tasks, key, true);
    TotalOne(x, key, true);
    assert p.flow == key ==> FlowOf(n, p) == key;
  }

  lemma ServeCares(n: Node, now: nat, key: Key)
    ensures Cares(n, Serve(n, now), key)
  {
    hide Total, Served, CountDrops, CountFloods, Picked;
    ServeAccount(n, now, key);
    var n' := Serve(n, now);
    assert Balanced(n, n', key);
    assert Done(n', key, true) + Ahead(n', key, true) == Done(n, key, true) + Ahead(n, key, true);
    if n.tasks != [] {
      var x := n.tasks[Served(n.tasks)];
      PickedHolds(n.held, ByFlow(x.FlowKey()));
      if x.kind == TASK_RESEND_RREQ && x.retries == 0 && x.FlowKey() != key {
        CountOne(n.floods, Request(key, 0), n.drops, x.FlowKey(), key);
      }
    }
  }

  lemma ConfirmCares(n: Node, k: nat, now: nat, key: Key)
    ensures Cares(n, Confirm(n, k, now), key)
  {
    hide Total, S.Find, Picked;
    if k < |n.tables.routes| {
      PickedHolds(n.held, ByFlow(n.tables.routes[k].key));
    }
  }

  /** Every step but a reply takes care of every flow. */
  lemma StepCares(n: Node, s: Step, now: nat, key: Key)
    requires Enabled(n, s) && !s.StepRrep? && !s.StepAnswer? && Ours(n, key)
    ensures Cares(n, After(n, s, now), key)
  {
    hide Total, R.After, Output, Serve, Signal, Confirm, Flood, Picked, Judged, InsertPos, WithoutTimer;
    match s
    case StepOutput(p, signalling) => OutputCares(n, p, signalling, now, key);
    case StepServe => ServeCares(n, now, key);
    case StepSignal =>
      SignalAccount(n, now, key);
      assert Ahead(Signal(n, now), key, true) == Ahead(n, key, true);
    case StepConfirm(k) => ConfirmCares(n, k, now, key);
    case StepTables(e) =>
    case StepGenRreq(k) =>
      FloodAccount(n, k, RREQ_RETRIES, now, key);
    case StepQueue(x) =>
      TotalSum(n.tasks, [x], key, true);
    case StepTimer(x) =>
      TotalWith(n.timers, InsertPos(n.timers, x.time), x, key, true);
    case StepDelete(k, kind) =>
      TimerDeleted(n.timers, k, kind, key, true);
    case StepNumber =>
    case StepDevice(ifindex) =>
      PickedHolds(n.held, ByDevice(ifindex));
  }

  // ---- Replies ----

  /** The node knows a newer route for the flow than the one the reply brings. */
  predicate KnowsNewer(n: Node, news: R.News) {
    var i := T.Find(n.tables.routes, news.key);
    i < |n.tables.routes| && n.tables.routes[i].id > news.id
  }

  /** Where the search by id ends before the reply is learned. */
  function SameId(n: Node, news: R.News): nat {
    T.FindById(n.tables.routes, news.key.dst, news.id)
  }

  /** A route to the same destination that happens to have the id of the reply stands before the flow's own. */
  predicate Shadowed(n: Node, news: R.News) {
    var i := T.Find(n.tables.routes, news.key);
    i < |n.tables.routes| && SameId(n, news) < i
  }

  /** The reply leads to a route of its flow: the known one is not newer, and not shadowed. Where the known one is
      newer, only another route with the same key could help. */
  predicate FindsOwn(n: Node, news: R.News) {
    var j := SameId(n, news);
    if KnowsNewer(n, news) then j < |n.tables.routes| && n.tables.routes[j].key == news.key
    else !Shadowed(n, news)
  }

  /** The reply leads to a route of another flow, whose source is listed: that route is confirmed instead. */
  predicate FindsOther(n: Node, news: R.News) {
    var j := SameId(n, news);
    !FindsOwn(n, news) && j < |n.tables.routes| && R.Listed(n.tables.sources, n.tables.routes[j].key.src)
  }

  /** Apart from the one timer that a reply deletes, something is pending for the flow. */
  predicate AnotherPending(n: Node, key: Key) {
    Total(n.tasks, key, true) + Total(WithoutTimer(n.timers, key, TASK_RESEND_RREQ), key, true) > 0
  }

  /** What the search by id finds after the reply has been learned, from the tables before. */
  lemma ReplyFinds(n: Node, news: R.News, now: nat, junk: nat)
    requires SelfListed(n) && news.key.src == n.me
    ensures var t' := R.Learn(n.tables, n.me, news, now, junk).0;
      var k := RouteAfter(n, news, now, junk);
      var j := SameId(n, news);
      && (FindsOwn(n, news) ==> k < |t'.routes| && t'.routes[k].key == news.key && R.Listed(t'.sources, n.me))
      && (!FindsOwn(n, news) ==>
            && t'.sources == n.tables.sources && |t'.routes| == |n.tables.routes| && k == j
            && (k < |t'.routes| ==> t'.routes[k] == n.tables.routes[k] && t'.routes[k].key != news.key))
  {
    R.LearnKeepsMe(n.tables, n.me, news, now, junk);
    hide T.Find, T.FindById, T.PlaceFor, S.Find, S.Exhausted;
    var rs := n.tables.routes;
    var rs' := R.Learn(n.tables, n.me, news, now, junk).0.routes;
    var i, j := T.Find(rs, news.key), SameId(n, news);
    var k := RouteAfter(n, news, now, junk);
    if i == |rs| {
      var p := T.PlaceFor(rs, news.key.dst);
      assert rs'[p].id == news.id && rs'[p].key == news.key;
      assert k <= p;
      assert forall l :: 0 <= l < p ==> rs'[l].key.dst != news.key.dst;
    } else {
      assert forall l :: 0 <= l < |rs| && l != i ==> rs'[l] == rs[l];
      assert rs'[i].key == news.key;
      if KnowsNewer(n, news) {
        assert rs' == rs;
      } else {
        assert rs'[i].id == news.id;
        assert k <= i;
      }
    }
  }

  /** The flow whose packets a reply releases, if any. */
  function Freed(n: Node, news: R.News): Option<Key> {
    if FindsOwn(n, news) then Some(news.key)
    else if FindsOther(n, news) then Some(n.tables.routes[SameId(n, news)].key)
    else None
  }

  /** A reply sends on exactly the held packets of the flow it leads to, in order. In the other order of the two
      actions the timer goes exactly when packets may go. */
  lemma ReplyReleases(n: Node, news: R.News, now: nat, junk: nat)
    requires SelfListed(n) && news.key.src == n.me
    ensures var n' := RecvRrep(n, news, now, junk);
      var n'' := Answer(n, news, now, junk);
      && n''.held == n'.held && n''.log == n'.log
      && n''.timers == (if Freed(n, news).Some? then n'.timers else n.timers)
      && match Freed(n, news)
         case None => n'.held == n.held && n'.log == n.log
         case Some(key) =>
           && n'.held == Picked(n.held, ByFlow(key), false)
           && n'.log == n.log + Judged(Picked(n.held, ByFlow(key), true), Accept)
    ensures Freed(n, news) == Some(news.key) <==> FindsOwn(n, news)
  {
    ReplyFinds(n, news, now, junk);
    hide R.Learn, RouteAfter, SameId, FindsOwn, Picked, Judged, WithoutTimer, S.Find;
  }

  /** After either handler the flow's packets are still held exactly if they were not released, and other flows keep
      all that is pending for them. */
  lemma ReplyLeaves(n: Node, n': Node, news: R.News, now: nat, junk: nat)
    requires NoneStranded(n) && SelfListed(n) && news.key.src == n.me
    requires n' == RecvRrep(n, news, now, junk) || n' == Answer(n, news, now, junk)
    ensures n'.me == n.me && n'.internal == n.internal
    ensures Holds(n', news.key) <==> Holds(n, news.key) && !FindsOwn(n, news)
    ensures forall p :: p in n'.held && Ours(n', p.flow) && p.flow != news.key ==> Ahead(n', p.flow, true) > 0
  {
    ReplyReleases(n, news, now, junk);
    RrepLeaves(n, news, now, junk);
    AnswerLeaves(n, news, now, junk);
    hide RecvRrep, Answer, Total, WithoutTimer, SameId, FindsOwn, FindsOther, SelfListed, Picked;
    match Freed(n, news) {
      case None =>
      case Some(key) =>
        PickedHolds(n.held, ByFlow(key));
        PickedOthers(n.held, key);
    }
    forall p | p in n'.held && Ours(n', p.flow) && p.flow != news.key
      ensures Ahead(n', p.flow, true) > 0
    {
      TimerDeleted(n.timers, news.key, TASK_RESEND_RREQ, p.flow, true);
      assert p in n.held;
    }
  }

  lemma PickedOthers(q: seq<Packet>, key: Key)
    ensures forall p :: p in q && p.flow != key ==> p in Picked(q, ByFlow(key), false)
  {
    PickedSplits(q, ByFlow(key));
    forall p | p in q && p.flow != key
      ensures p in Picked(q, ByFlow(key), false)
    {
      assert p in multiset(q);
      assert p !in Picked(q, ByFlow(key), true);
      assert p in multiset(Picked(q, ByFlow(key), false));
    }
  }

  /** A reply keeps every held packet accounted for, exactly when it leads to a route of its own flow, or nothing is
      held for that, or something else is pending for it. Otherwise it cancels the retries and releases nothing of the
      flow. */
  lemma ReplyKeepsExactly(n: Node, news: R.News, now: nat, junk: nat)
    requires NoneStranded(n) && SelfListed(n) && news.key.src == n.me && Ours(n, news.key)
    ensures NoneStranded(RecvRrep(n, news, now, junk)) <==> Timely(n, news)
  {
    var n' := RecvRrep(n, news, now, junk);
    ReplyLeaves(n, n', news, now, junk);
    RrepLeaves(n, news, now, junk);
    hide RecvRrep, Total, WithoutTimer, FindsOwn, SelfListed;
    assert Ahead(n', news.key, true) > 0 <==> AnotherPending(n, news.key);
  }

  predicate Timely(n: Node, news: R.News) {
    FindsOwn(n, news) || !Holds(n, news.key) || AnotherPending(n, news.key)
  }

  /** In the other order there is one way less to go wrong: the timer is lost only if the reply leads to a listed route
      of another flow. A reply that is merely late does no harm. */
  lemma AnswerKeepsExactly(n: Node, news: R.News, now: nat, junk: nat)
    requires NoneStranded(n) && SelfListed(n) && news.key.src == n.me && Ours(n, news.key)
    ensures NoneStranded(Answer(n, news, now, junk)) <==> !FindsOther(n, news) || Timely(n, news)
  {
    var n' := Answer(n, news, now, junk);
    ReplyLeaves(n, n', news, now, junk);
    ReplyReleases(n, news, now, junk);
    RrepLeaves(n, news, now, junk);
    AnswerLeaves(n, news, now, junk);
    hide RecvRrep, Answer, Total, WithoutTimer, SameId, FindsOwn, SelfListed;
    if Freed(n, news).Some? {
      assert Ahead(n', news.key, true) > 0 <==> AnotherPending(n, news.key);
    } else {
      assert Ahead(n', news.key, true) == Ahead(n, news.key, true);
    }
  }

  /** With unique keys: a reply leads to its own flow exactly if no newer route is known and no route to the destination
      with the reply's id stands before the flow's own. */
  lemma FindsOwnExactly(n: Node, news: R.News)
    requires T.UniqueKeys(n.tables.routes)
    ensures FindsOwn(n, news) <==> !KnowsNewer(n, news) && !Shadowed(n, news)
  {
    hide T.Find, T.FindById;
    var i, j := T.Find(n.tables.routes, news.key), SameId(n, news);
    assert KnowsNewer(n, news) && j < |n.tables.routes| ==> j != i;
  }

  /** A neighbour that is discovered shadows: the route to it gets the node's own number as its id and a place before
      all other routes to the neighbour. A reply that comes with that number for an older route is led astray. */
  lemma NeighbourShadows(n: Node, news: R.News, junk: nat, now: nat)
    requires T.Find(n.tables.routes, news.key) < |n.tables.routes| && !KnowsNewer(n, news)
    requires news.key != Key(n.me, news.key.dst, 0) && SelfListed(n)
    ensures var n' := After(n, StepTables(R.EventNeighbour(news.key.dst, news.id, junk)), now);
      !KnowsNewer(n', news) && Shadowed(n', news) && !FindsOwn(n', news) && FindsOther(n', news)
  {
    hide T.Find, T.FindById, T.PlaceFor, S.Find;
    var rs := n.tables.routes;
    var i, p := T.Find(rs, news.key), T.PlaceFor(rs, news.key.dst);
    var n' := After(n, StepTables(R.EventNeighbour(news.key.dst, news.id, junk)), now);
    var rs' := n'.tables.routes;
    assert rs' == T.Insert(rs, R.NeighbourRoute(n.me, news.key.dst, news.id, junk));
    assert p <= i;
    assert rs'[p].key.dst == news.key.dst && rs'[p].id == news.id;
    assert rs'[i + 1] == rs[i];
    assert SameId(n', news) == p;
    assert T.Find(rs', news.key) == i + 1 by {
      assert forall l :: 0 <= l < i + 1 ==> rs'[l].key != news.key;
    }
  }

  // ---- Over whole runs ----

  lemma StepKeepsMe(n: Node, s: Step, now: nat)
    requires SelfListed(n)
    ensures SelfListed(After(n, s, now)) && After(n, s, now).me == n.me && After(n, s, now).internal == n.internal
  {
    hide R.Listed, R.Learn, R.Sweep, T.FindById, T.Find, Decide, S.Find, Serve, Signal;
    hide Picked, Judged, InsertTimer, WithoutTimer, RouteAfter;
    match s
    case StepServe => ServeLeaves(n, now);
    case StepSignal => SignalAccount(n, now, Key(0, 0, 0));
    case StepRrep(news, junk) => R.LearnKeepsMe(n.tables, n.me, news, now, junk);
    case StepAnswer(news, junk) => R.LearnKeepsMe(n.tables, n.me, news, now, junk);
    case StepTables(e) => R.EventKeepsMe(n.tables, n.me, e, now);
    case _ =>
  }

  lemma ServeLeaves(n: Node, now: nat)
    ensures var n' := Serve(n, now); n'.tables == n.tables && n'.me == n.me && n'.internal == n.internal
  {
    hide Served, Picked, Judged, InsertTimer;
  }

  /** A reply, in either order, that cannot strand a packet. */
  predicate Harmless(n: Node, s: Step) {
    match s
    case StepRrep(news, _) => Timely(n, news)
    case StepAnswer(news, _) => !FindsOther(n, news) || Timely(n, news)
    case _ => true
  }

  lemma StepKeepsPackets(n: Node, s: Step, now: nat)
    requires SelfListed(n) && NoneStranded(n) && Enabled(n, s) && Harmless(n, s)
    ensures NoneStranded(After(n, s, now))
  {
    StepKeepsMe(n, s, now);
    hide NoneStranded, SelfListed, Cares, Timely, FindsOther;
    match s
    case StepRrep(news, junk) => ReplyKeepsPackets(n, RecvRrep(n, news, now, junk), news, now, junk);
    case StepAnswer(news, junk) => ReplyKeepsPackets(n, Answer(n, news, now, junk), news, now, junk);
    case _ =>
      forall key | Ours(n, key)
        ensures Cares(n, After(n, s, now), key)
      {
        StepCares(n, s, now, key);
      }
      CaringKeeps(n, After(n, s, now));
  }

  lemma ReplyKeepsPackets(n: Node, n': Node, news: R.News, now: nat, junk: nat)
    requires SelfListed(n) && NoneStranded(n) && news.key.src == n.me
    requires (n' == RecvRrep(n, news, now, junk) && Timely(n, news))
          || (n' == Answer(n, news, now, junk) && (!FindsOther(n, news) || Timely(n, news)))
    ensures NoneStranded(n')
  {
    hide SelfListed, RecvRrep, Answer, FindsOther, Timely, Total, WithoutTimer;
    if !Ours(n, news.key) {
      ReplyLeaves(n, n', news, now, junk);
    } else if n' == RecvRrep(n, news, now, junk) && Timely(n, news) {
      ReplyKeepsExactly(n, news, now, junk);
    } else {
      AnswerKeepsExactly(n, news, now, junk);
    }
  }

  /** The node when the protocol starts. */
  ghost predicate Start(n: Node) {
    n.tables == R.Boot(n.me) && n.tasks == [] && n.timers == [] && n.held == []
  }

  /** Along a run whose replies are harmless every held packet stays accounted for. */
  lemma {:induction false} RunKeepsPackets(ns: seq<Node>, ss: seq<Step>, clock: seq<nat>)
    requires Run(ns, ss, clock) && SelfListed(ns[0]) && NoneStranded(ns[0])
    requires forall i :: 0 <= i < |ss| ==> Harmless(ns[i], ss[i])
    ensures SelfListed(ns[|ss|]) && NoneStranded(ns[|ss|])
    ensures ns[|ss|].me == ns[0].me && ns[|ss|].internal == ns[0].internal
  {
    hide Enabled, After, Harmless, SelfListed, NoneStranded;
    if ss != [] {
      var i := |ss| - 1;
      RunKeepsPackets(ns[..|ss|], ss[..i], clock[..i]);
      StepKeepsMe(ns[i], ss[i], clock[i]);
      StepKeepsPackets(ns[i], ss[i], clock[i]);
    }
  }

  /** From the start on, as long as replies are harmless, every held packet of the node's own flows is accounted for:
      once nothing is pending for a flow, no packet of it is held. */
  lemma NoneForgotten(ns: seq<Node>, ss: seq<Step>, clock: seq<nat>)
    requires Run(ns, ss, clock) && Start(ns[0])
    requires forall i :: 0 <= i < |ss| ==> Harmless(ns[i], ss[i])
    ensures SelfListed(ns[|ss|]) && NoneStranded(ns[|ss|])
    ensures forall key :: Ours(ns[|ss|], key) && Work(ns[|ss|], key) == 0 ==> !Holds(ns[|ss|], key)
  {
    BootListed(ns[0].me);
    hide Enabled, After, Harmless, SelfListed;
    RunKeepsPackets(ns, ss, clock);
    NothingPending(ns[|ss|]);
  }

  /** However the steps of a run interleave: once as many tasks of a flow's discovery have been served as it had work
      left, no packet of the flow is held any more. */
  lemma ServedFlowsAreDone(ns: seq<Node>, ss: seq<Step>, clock: seq<nat>, key: Key)
    requires Run(ns, ss, clock) && SelfListed(ns[0]) && NoneStranded(ns[0]) && Ours(ns[0], key)
    requires forall i :: 0 <= i < |ss| ==> Quiet(ns[i], ss[i], key) && Harmless(ns[i], ss[i])
    requires Worked(ns, ss, key) >= Work(ns[0], key)
    ensures !Holds(ns[|ss|], key)
  {
    hide Enabled, After, Harmless, Quiet, SelfListed, NoneStranded, Work, Worked, Balanced;
    QuietRun(ns, ss, clock, key);
    RunKeepsPackets(ns, ss, clock);
    NothingPending(ns[|ss|]);
  }

  lemma NothingPending(n: Node)
    requires NoneStranded(n)
    ensures forall key :: Ours(n, key) && Work(n, key) == 0 ==> !Holds(n, key)
  {
  }

  lemma BootListed(me: Ip)
    ensures R.Listed(R.Boot(me).sources, me)
  {
  }

  /** How packets are left behind, on any node that is idle and whose route for the flow has been invalidated: the
      packet is held, the request sent, the timer set; then a reply comes that does not lead to the flow's own route,
      and the packet stays with nothing pending for it. The reply may be late, or shadowed. */
  lemma StrayReplyStrands(n: Node, p: Packet, news: R.News, now: nat, junk: nat)
    requires SelfListed(n) && n.tasks == [] && n.timers == [] && |n.held| < n.room
    requires p.flow == news.key && Ours(n, news.key) && news.key.src != news.key.dst && !FindsOwn(n, news)
    requires n.tables.routes[T.Find(n.tables.routes, news.key)].state == T.Invalid
    ensures var waiting := Serve(Output(n, p, false, now), now);
      var n' := RecvRrep(waiting, news, now, junk);
      && Ahead(waiting, p.flow, true) == 1
      && Holds(n', p.flow) && Ahead(n', p.flow, true) == 0 && !NoneStranded(n')
  {
    hide T.Find, T.FindById, Served, Picked, Judged;
    var n1 := Output(n, p, false, now);
    assert n1.tasks == [GenTask(p.flow, now)];
    assert n1.held[|n.held|] == p;
    assert Served(n1.tasks) == 0;
    var n2 := Serve(n1, now);
    var x := DirectionalTimer(TASK_RESEND_RREQ, 0, RREQ_RETRIES, p.flow, now);
    OneTimer(x, p.flow);
    assert n2.tasks == [] && n2.timers == [x];
    assert n2.tables == n.tables && n2.held == n1.held && FindsOwn(n2, news) == FindsOwn(n, news);
    TotalOne(x, p.flow, true);
    StrayLeaves(n2, p, news, now, junk);
  }

  lemma StrayLeaves(n: Node, p: Packet, news: R.News, now: nat, junk: nat)
    requires SelfListed(n) && news.key.src == n.me && !FindsOwn(n, news) && p in n.held && p.flow == news.key
    requires n.tasks == [] && WithoutTimer(n.timers, news.key, TASK_RESEND_RREQ) == []
    ensures var n' := RecvRrep(n, news, now, junk);
      p in n'.held && n'.tasks == [] && n'.timers == [] && n'.me == n.me && n'.internal == n.internal
  {
    ReplyReleases(n, news, now, junk);
    RrepLeaves(n, news, now, junk);
    hide RecvRrep, Picked, WithoutTimer, FindsOwn;
    if Freed(n, news).Some? {
      PickedOthers(n.held, Freed(n, news).value);
    }
  }

  lemma OneTimer(x: TaskInfo, key: Key)
    requires Matches(x, key, TASK_RESEND_RREQ)
    ensures InsertTimer([], x) == [x] && WithoutTimer([x], key, TASK_RESEND_RREQ) == []
  {
    assert FirstMatch([x], key, TASK_RESEND_RREQ) == 0;
  }
}
