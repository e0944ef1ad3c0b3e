/** The network as a transition system: route requests flooded hop by hop (rreq.c), replies sent back along the
    reverse routes (rrep.c), and the routes that both install (aodv_route.c). Neighbourhoods are arbitrary and may
    change at every step; messages may be lost at any time. */
module Network {
  import opened Types
  import opened Metrics

  /** What a node keeps for a route key: the id and the metric it was accepted with, hops and next hop. */
  datatype Entry = Entry(id: nat, metric: nat, hops: nat, nextHop: Ip)

  /** A message on its way from one node to a neighbour. `flow` is the flow that discovery was started for. A
      request looks for `flow.dst` on behalf of `flow.src`; a reply answers it. `left` is history: the metric of
      the reverse route of the node that sent the reply. */
  datatype Msg =
    | Rreq(to: Ip, from: Ip, ttl: nat, flow: Key, id: nat, hops: nat, metric: nat)
    | Rrep(to: Ip, from: Ip, flow: Key, id: nat, srcId: nat, hops: nat, path: nat, left: nat)

  /** History: the key that a sequence number was issued for, and whether a request or a reply carried it. */
  datatype Issue = Issue(key: Key, flood: bool)

  /** What node `n` learned on a route of its own making. */
  datatype Own = Own(n: Ip, key: Key, entry: Entry)

  /** The routes of a node's own making, to itself and to its neighbours, are not among the tables; `own` is history:
      all that has ever been learned on them. */
  datatype Net = Net(
    routing: Routing,
    seqNo: map<Ip, nat>,
    tables: map<(Ip, Key), Entry>,
    flight: seq<Msg>,
    issued: map<(Ip, nat), Issue>,
    own: set<Own>)

  function Reverse(k: Key): Key {
    Key(k.dst, k.src, k.tos)
  }

  /** The key of the route that a message installs; its `dst` is the node that issued the id. */
  function RouteKey(m: Msg): Key {
    if m.Rreq? then Reverse(m.flow) else m.flow
  }

  /** A node's own sequence number; it starts at 1. */
  function SeqNo(net: Net, n: Ip): nat {
    if n in net.seqNo then net.seqNo[n] else 1
  }

  // ---- The order on routes ----

  /** A newer id, or the same id and a smaller metric. */
  predicate Beats(id: nat, metric: nat, id': nat, metric': nat) {
    id > id' || (id == id' && metric < metric')
  }

  predicate AtLeast(id: nat, metric: nat, id': nat, metric': nat) {
    id > id' || (id == id' && metric <= metric')
  }

  /** `rreq_aodv_route` accepts a route for a key when there is none yet or the new one beats it. */
  predicate Accepts(net: Net, n: Ip, k: Key, id: nat, metric: nat) {
    (n, k) !in net.tables || Beats(id, metric, net.tables[(n, k)].id, net.tables[(n, k)].metric)
  }

  function Install(net: Net, n: Ip, k: Key, e: Entry): Net {
    if Accepts(net, n, k, e.id, e.metric) then net.(tables := net.tables[(n, k) := e]) else net
  }

  // ---- Handlers ----

  /** What a receiver knows for the metric: its own load, the link, its neighbours and theirs. */
  datatype Radio = Radio(own: nat, link: Link, near: seq<Loaded>, far: seq<Loaded>)

  /** The metric of a received request, `hops` being counted already. */
  function PathMetric(routing: Routing, radio: Radio, tos: Tos, hops: nat, metric: nat): Metric
    requires radio.link.Valid()
  {
    match routing
    case Ett => EttMetric(radio.link, metric)
    case Wcim => WcimMetric(radio.own, radio.link, radio.near, radio.far, tos, metric)
    case Hops => Total(hops)
  }

  /** One copy for each node that hears the broadcast. A TTL of zero is not sent. */
  function Broadcast(from: Ip, audience: seq<Ip>, ttl: nat, flow: Key, id: nat, hops: nat, metric: nat)
    : (r: seq<Msg>)
    ensures ttl < 1 ==> r == []
    ensures ttl >= 1 ==> |r| == |audience|
    ensures forall i :: 0 <= i < |r| ==> r[i] == Rreq(audience[i], from, ttl, flow, id, hops, metric)
  {
    if ttl < 1 then []
    else seq(|audience|, i requires 0 <= i < |audience| => Rreq(audience[i], from, ttl, flow, id, hops, metric))
  }

  /** `gen_rreq` and the retries of `resend_rreq`: a new id and a flood. */
  function Originate(net: Net, flow: Key, audience: seq<Ip>): Net {
    var id := SeqNo(net, flow.src) + 1;
    net.(seqNo := net.seqNo[flow.src := id],
         issued := net.issued[(flow.src, id) := Issue(Reverse(flow), true)],
         flight := net.flight + Broadcast(flow.src, audience, NET_DIAMETER, flow, id, 0, 0))
  }

  function Drop(net: Net, i: nat): Net
    requires i < |net.flight|
  {
    net.(flight := RemoveAt(net.flight, i))
  }

  /** `recv_rreq` on the copy at position `i`. */
  function RecvRreq(net: Net, i: nat, radio: Radio, audience: seq<Ip>): Net
    requires i < |net.flight| && net.flight[i].Rreq?
    requires radio.link.Valid()
  {
    var m := net.flight[i];
    var n := m.to;
    var rest := Drop(net, i);
    var iamDestination := m.flow.dst == n;
    if m.ttl <= 1 && !iamDestination then rest
    else if m.flow.src == n then rest
    else
      var hops := (m.hops + 1) % U8;
      match PathMetric(net.routing, radio, m.flow.tos, hops, m.metric)
      case Refused => rest
      case NullFlow => rest
      case Total(metric) =>
        if !Accepts(net, n, RouteKey(m), m.id, metric) then rest
        else
          var installed := Install(rest, n, RouteKey(m), Entry(m.id, metric, hops, m.from));
          if iamDestination then installed
          else installed.(flight := installed.flight + Broadcast(n, audience, m.ttl - 1, m.flow, m.id, hops, metric))
  }

  /** `gen_rrep` at the node that a request looked for. */
  function Reply(net: Net, flow: Key): Net
    requires (flow.dst, Reverse(flow)) in net.tables
  {
    Answer(net, flow, net.tables[(flow.dst, Reverse(flow))])
  }

  /** The reply goes back by the route that is given. */
  function Answer(net: Net, flow: Key, route: Entry): Net {
    var id := SeqNo(net, flow.dst) + 1;
    net.(seqNo := net.seqNo[flow.dst := id],
         issued := net.issued[(flow.dst, id) := Issue(flow, false)],
         flight := net.flight + [Rrep(route.nextHop, flow.dst, flow, id, route.id, 0, route.metric, route.metric)])
  }

  /** `find_aodv_route_by_id` may answer with any route of the node to that destination with that id. */
  ghost predicate FoundById(net: Net, n: Ip, dst: Ip, id: nat, r: Option<Key>) {
    match r
    case Some(k) => k.dst == dst && (n, k) in net.tables && net.tables[(n, k)].id == id
    case None => forall k: Key :: k.dst == dst && (n, k) in net.tables ==> net.tables[(n, k)].id != id
  }

  /** Subtraction of 32-bit words. */
  function Sub32(a: nat, b: nat): nat {
    (a - b) % U32
  }

  lemma Sub32Exact(a: nat, b: nat)
    requires b <= a < U32
    ensures Sub32(a, b) == a - b
  {
  }

  /** What a search by id may come up with: a route, nothing, or the route to a neighbour. That one is not part of the
      model: it has a number of the node itself as its id, a metric of one and no next hop. */
  datatype Hit = Hit(key: Key) | Miss | Near

  ghost predicate Searched(net: Net, n: Ip, dst: Ip, id: nat, h: Hit) {
    match h
    case Hit(k) => FoundById(net, n, dst, id, Some(k))
    case Miss => FoundById(net, n, dst, id, None)
    case Near => true
  }

  /** `recv_rrep` on the reply at position `i`: at the source of the flow the route is installed; elsewhere the
      reverse route is looked up by id, the route installed, looked up by id in turn, and the reply sent on. A reply
      that is sent on along the route to a neighbour goes nowhere. */
  ghost predicate RecvRrep(net: Net, net': Net, i: nat, rk: Hit, sk: Hit) {
    && i < |net.flight| && net.flight[i].Rrep?
    && var m := net.flight[i];
       var n := m.to;
       var rest := Drop(net, i);
       var hops := (m.hops + 1) % U8;
       if m.flow.src == n then
         net' == Install(rest, n, m.flow, Entry(m.id, m.path, hops, m.from))
       else
         && Searched(rest, n, m.flow.src, m.srcId, rk)
         && match rk
            case Miss => net' == rest
            case Near => net' == Install(rest, n, m.flow, Entry(m.id, Sub32(m.path, 1), hops, m.from))
            case Hit(k) =>
              var recv := net.tables[(n, k)];
              var installed := Install(rest, n, m.flow, Entry(m.id, Sub32(m.path, recv.metric), hops, m.from));
              && Searched(installed, n, m.flow.dst, m.id, sk)
              && if sk == Miss then net' == installed
                 else net' == installed.(flight := installed.flight
                        + [Rrep(recv.nextHop, n, m.flow, m.id, m.srcId, hops, m.path, recv.metric)])
  }

  function Remove(net: Net, n: Ip, k: Key): Net {
    net.(tables := net.tables - {(n, k)})
  }

  /** The message at position `i` is learned, with that metric, on a route of the receiver's own making. */
  function Owned(net: Net, i: nat, metric: nat): Net
    requires i < |net.flight|
  {
    var m := net.flight[i];
    Drop(net, i).(own := net.own + {Own(m.to, RouteKey(m), Entry(m.id, metric, (m.hops + 1) % U8, m.from))})
  }

  /** The metric that the message would be learned with. */
  function MetricOf(net: Net, m: Msg, radio: Radio): Metric
    requires radio.link.Valid()
  {
    if m.Rreq? then PathMetric(net.routing, radio, m.flow.tos, (m.hops + 1) % U8, m.metric) else Total(m.path)
  }

  /** A number is used up, for a reply that goes nowhere. */
  function Skip(net: Net, n: Ip): Net {
    net.(seqNo := net.seqNo[n := SeqNo(net, n) + 1])
  }

  // ---- Steps ----

  datatype Step =
    | StepOriginate(flow: Key, audience: seq<Ip>)
    | StepRecvRreq(i: nat, radio: Radio, audience: seq<Ip>)
    | StepReply(flow: Key)
    | StepRecvRrep(i: nat, rk: Hit, sk: Hit)
    | StepLose(i: nat)
    | StepRemove(n: Ip, key: Key)
    | StepOwn(i: nat, radio: Radio)
    | StepOwnReply(flow: Key, route: Entry)
    | StepSkip(n: Ip)

  /** The steps of the protocol. Sequence numbers do not wrap, a node does not look for a route to itself, and it
      does not hear its own broadcasts. Expiry to the invalid state changes nothing that is kept here. */
  ghost predicate NextStep(net: Net, net': Net, step: Step) {
    match step
    case StepOriginate(flow, audience) =>
      && flow.src != flow.dst && SeqNo(net, flow.src) + 1 < U32 && flow.src !in audience
      && net' == Originate(net, flow, audience)
    case StepRecvRreq(i, radio, audience) =>
      && i < |net.flight| && net.flight[i].Rreq? && radio.link.Valid()
      && net.flight[i].to !in audience
      && net' == RecvRreq(net, i, radio, audience)
    case StepReply(flow) =>
      && (flow.dst, Reverse(flow)) in net.tables && SeqNo(net, flow.dst) + 1 < U32
      && net' == Reply(net, flow)
    case StepRecvRrep(i, rk, sk) => RecvRrep(net, net', i, rk, sk)
    case StepLose(i) => i < |net.flight| && net' == Drop(net, i)
    case StepRemove(n, key) => (n, key) in net.tables && net' == Remove(net, n, key)
    case StepOwn(i, radio) =>
      && i < |net.flight| && radio.link.Valid()
      && var m := net.flight[i];
         var metric := MetricOf(net, m, radio);
         RouteKey(m).src == m.to && metric.Total? && net' == Owned(net, i, metric.path)
    case StepOwnReply(flow, route) =>
      && Own(flow.dst, Reverse(flow), route) in net.own && SeqNo(net, flow.dst) + 1 < U32
      && net' == Answer(net, flow, route)
    case StepSkip(n) => SeqNo(net, n) + 1 < U32 && net' == Skip(net, n)
  }

  ghost predicate Init(net: Net) {
    net.tables == map[] && net.flight == [] && net.issued == map[] && net.own == {}
  }

  // ---- Invariant ----

  /** Every message in flight for the key is newer than `id`. */
  ghost predicate NoneOld(net: Net, k: Key, id: nat) {
    forall m :: m in net.flight && RouteKey(m) == k ==> m.id > id
  }

  ghost predicate IssuedFor(net: Net, id: nat, k: Key) {
    id <= SeqNo(net, k.dst) && (k.dst, id) in net.issued && net.issued[(k.dst, id)].key == k
  }

  /** Facts about an entry that no other node's step affects. */
  ghost predicate EntryOk(net: Net, n: Ip, k: Key)
    requires (n, k) in net.tables
  {
    Sensible(net, n, k, net.tables[(n, k)])
  }

  ghost predicate Sensible(net: Net, n: Ip, k: Key, e: Entry) {
    && k.src != k.dst && n != k.dst && e.nextHop != k.src && e.nextHop != n
    && 1 <= e.metric <= NET_DIAMETER * MAX_INCREMENT && (e.metric == 1 ==> e.nextHop == k.dst)
    && IssuedFor(net, e.id, k)
  }

  /** The node `p` is the end of the route, or it has a strictly better route, or it has none and will not take up
      one that is as old. */
  ghost predicate Ahead(net: Net, p: Ip, k: Key, id: nat, metric: nat) {
    || p == k.dst
    || ((p, k) in net.tables && Beats(net.tables[(p, k)].id, net.tables[(p, k)].metric, id, metric))
    || ((p, k) !in net.tables && NoneOld(net, k, id))
  }

  ghost predicate NextOk(net: Net, n: Ip, k: Key)
    requires (n, k) in net.tables
  {
    var e := net.tables[(n, k)];
    Ahead(net, e.nextHop, k, e.id, e.metric)
  }

  /** So it is with what was learned on a route of the node's own making. */
  ghost predicate OwnOk(net: Net, o: Own) {
    && o.key.src == o.n && Sensible(net, o.n, o.key, o.entry)
    && Ahead(net, o.entry.nextHop, o.key, o.entry.id, o.entry.metric)
  }

  /** Facts about a message by itself. The TTL and the hop count of a request add up to the network diameter. */
  ghost predicate MsgOk(net: Net, m: Msg) {
    var k := RouteKey(m);
    && k.src != k.dst && m.from != m.to && m.from != k.src
    && (m.from != k.dst ==> Advertised(m) >= 1)
    && IssuedFor(net, m.id, k) && net.issued[(k.dst, m.id)].flood == m.Rreq?
    && match m
       case Rreq(_, _, ttl, _, _, hops, metric) =>
         && ttl >= 1 && ttl + hops == NET_DIAMETER
         && metric <= hops * MAX_INCREMENT
         && (net.routing == Hops ==> metric == hops)
       case Rrep(to, _, flow, _, srcId, _, path, left) =>
         && to != flow.dst && (left == 1 ==> to == flow.src) && 1 <= left <= path <= NET_DIAMETER * MAX_INCREMENT
         && IssuedFor(net, srcId, Reverse(flow))
  }

  /** The metric that the sender of a message holds for the route. */
  function Advertised(m: Msg): int {
    if m.Rreq? then m.metric else m.path - m.left
  }

  /** The sender of a message holds a route that is at least as good as the message says. */
  ghost predicate SenderOk(net: Net, m: Msg) {
    var k := RouteKey(m);
    || m.from == k.dst
    || ((m.from, k) in net.tables && Advertised(m) >= 0
        && AtLeast(net.tables[(m.from, k)].id, net.tables[(m.from, k)].metric, m.id, Advertised(m)))
  }

  /** The receiver of a reply is ahead of its sender on the way back. */
  ghost predicate RelayOk(net: Net, m: Msg) {
    m.Rrep? ==> Ahead(net, m.to, Reverse(m.flow), m.srcId, m.left)
  }

  /** An id that a node has not reached yet has not been issued. */
  ghost predicate IssuedInPast(net: Net) {
    forall n: Ip, id: nat :: (n, id) in net.issued ==> id <= SeqNo(net, n)
  }

  ghost predicate Inv(net: Net) {
    && IssuedInPast(net)
    && (forall n: Ip, k: Key :: (n, k) in net.tables ==> EntryOk(net, n, k) && NextOk(net, n, k))
    && (forall o :: o in net.own ==> OwnOk(net, o))
    && (forall m :: m in net.flight ==> MsgOk(net, m) && SenderOk(net, m) && RelayOk(net, m))
  }
}
