/** What a hop adds to the metric of a path (route_alg.c), under the three routing metrics. */
module Metrics {
  import opened Types
  import opened Arithmetic

  datatype Routing = Hops | Ett | Wcim

  const PROBE_PACKET := 11776

  /** The largest increment of any metric: one probe packet at the lowest rate over the worst link. */
  const MAX_INCREMENT := 11776000

  /** What is known of the link to a neighbour: rates in 0.1 Mbps, delivery in percent, the load it announces,
      and the table of the neighbours it transmits to, where zero is an empty slot. */
  datatype Link = Link(ip: Ip, recvRate: nat, sendRate: nat, etx: nat, load: nat, neighTx: seq<Ip>)
  {
    predicate Valid() {
      recvRate <= 540 && sendRate <= 540 && etx <= 100 && load < U8
    }

    /** Rates have been measured in both directions and the delivery ratio is not zero. */
    predicate Measured() {
      recvRate != 0 && sendRate != 0 && etx != 0
    }
  }

  /** A neighbour, of one hop or of two, and the load it announces. */
  datatype Loaded = Loaded(ip: Ip, load: nat)

  datatype Flow = Flow(avgRate: nat, avgSize: nat)

  /** The table of flow types: average rate in kbps and average packet size in bytes. */
  function FlowType(tos: Tos): Option<Flow> {
    if tos == 0x02 then Some(Flow(1000, 1472))
    else if tos == 0x04 then Some(Flow(750, 1472))
    else if tos == 0x08 then Some(Flow(500, 1472))
    else if tos == 0x10 then Some(Flow(250, 1472))
    else if tos == 0x0c then Some(Flow(100, 172))
    else if tos == 0x14 then Some(Flow(300, 972))
    else if tos == 0x18 then Some(Flow(250, 1472))
    else if tos == 0x1c then Some(Flow(500, 1472))
    else None
  }

  /** The outcome of a metric computation. `NullFlow` is the use of a flow type that was not found. */
  datatype Metric = Total(path: nat) | Refused | NullFlow

  function EttMetric(link: Link, path: nat): Metric
    requires link.Valid()
  {
    if !link.Measured() then Refused
    else Total((path + PROBE_PACKET * 1000 / (link.recvRate * link.etx)) % U32)
  }

  /** The share of the air time of a packet, in percent, that is its payload. */
  function ComputeCoef(size: nat, rate: nat): (c: nat)
    ensures c < U8
  {
    if size == 0 || rate == 0 then 0
    else Share(Payload(size * 8000, rate), AirTime(size * 8000, rate))
  }

  /** The air time of the payload, and that of the whole packet with its headers and waits. */
  function Payload(bits: nat, rate: nat): nat
    requires rate > 0
  {
    bits % U32 / rate
  }

  function AirTime(bits: nat, rate: nat): nat
    requires rate > 0
  {
    ((bits + 470 * 1000) % U32 / rate + 122 * 100) % U32
  }

  function Share(nominal: nat, total: nat): (c: nat)
    ensures c < U8
  {
    if total == 0 then 0 else (nominal * 100) % U32 / total % U8
  }

  /** C division, which truncates toward zero. */
  function TruncatedDiv(a: int, b: int): int
    requires b > 0
  {
    if a >= 0 then a / b else -((-a) / b)
  }

  /** How a one-hop neighbour weighs: twice if the transmitter cannot hear it. */
  function OneHopWeight(link: Link, n: Loaded): nat {
    if n.ip == link.ip then 1
    else if n.ip != 0 && n.ip in link.neighTx then 1
    else 2
  }

  function OneHopLoad(link: Link, n: Loaded): nat {
    if n.ip == link.ip then link.load else n.load * OneHopWeight(link, n)
  }

  function TwoHopLoad(link: Link, n: Loaded): nat {
    n.load * (if n.ip != 0 && n.ip in link.neighTx then 2 else 1) / 2
  }

  /** The load around the node: its own, its neighbours', its neighbours' neighbours'. */
  function TotalLoad(own: nat, link: Link, near: seq<Loaded>, far: seq<Loaded>): nat
    decreases |near| + |far|
  {
    if far != [] then TotalLoad(own, link, near, far[..|far| - 1]) + TwoHopLoad(link, far[|far| - 1])
    else if near != [] then TotalLoad(own, link, near[..|near| - 1], far) + OneHopLoad(link, near[|near| - 1])
    else own
  }

  /** The bandwidth a link leaves for a new flow, in 16 bits, given the load in eight bits. */
  function Residual(link: Link, flow: Flow, load: nat): (bw: nat)
    ensures bw < U16
  {
    var bw := link.recvRate * link.etx * ComputeCoef(flow.avgSize, link.recvRate) / 100 % U16;
    TruncatedDiv(bw * (100 - load), 100) % U16
  }

  function WcimMetric(own: nat, link: Link, near: seq<Loaded>, far: seq<Loaded>, tos: Tos, path: nat): Metric
    requires link.Valid()
  {
    if !link.Measured() then Refused
    else
      match FlowType(tos)
      case None => NullFlow
      case Some(flow) =>
        var bw := Residual(link, flow, TotalLoad(own, link, near, far) % U8);
        if bw <= flow.avgRate then Refused
        else Total((path + flow.avgSize * 8000 / bw) % U32)
  }

  /** `wcim_metric`: the loops over the two neighbour lists, with the load kept in eight bits. */
  method ComputeWcim(own: nat, link: Link, near: seq<Loaded>, far: seq<Loaded>, tos: Tos, path: nat)
    returns (r: Metric)
    requires link.Valid() && own < U8
    ensures r == WcimMetric(own, link, near, far, tos, path)
  {
    if !link.Measured() {
      return Refused;
    }
    var flow := FlowType(tos);
    if flow == None {
      return NullFlow;
    }
    var coef := ComputeCoef(flow.value.avgSize, link.recvRate);
    var recvBw := link.recvRate * link.etx * coef / 100 % U16;
    var load := NearLoad(own, link, near);
    load := FarLoad(own, load, link, near, far);
    recvBw := TruncatedDiv(recvBw * (100 - load), 100) % U16;
    if recvBw <= flow.value.avgRate {
      return Refused;
    }
    return Total((path + flow.value.avgSize * 8000 / recvBw) % U32);
  }

  /** The loop over the one-hop neighbours. */
  method NearLoad(own: nat, link: Link, near: seq<Loaded>) returns (load: nat)
    requires own < U8
    ensures load == TotalLoad(own, link, near, []) % U8
  {
    load := own;
    var k := 0;
    while k < |near|
      invariant k <= |near| && load == TotalLoad(own, link, near[..k], []) % U8
    {
      var n := near[k];
      ghost var before := TotalLoad(own, link, near[..k], []);
      assert near[..k + 1][..k] == near[..k];
      if n.ip == link.ip {
        load := (load + link.load) % U8;
        AddMod(before, link.load);
      } else {
        var known := TransmitsTo(link, n.ip);
        var alpha := if known then 1 else 2;
        load := (load + n.load * alpha) % U8;
        AddMod(before, n.load * alpha);
      }
      k := k + 1;
    }
    assert near[..k] == near;
  }

  /** The loop over the two-hop neighbours, which adds to the load found so far. */
  method FarLoad(own: nat, start: nat, link: Link, near: seq<Loaded>, far: seq<Loaded>) returns (load: nat)
    requires start == TotalLoad(own, link, near, []) % U8
    ensures load == TotalLoad(own, link, near, far) % U8
  {
    load := start;
    var k := 0;
    while k < |far|
      invariant k <= |far| && load == TotalLoad(own, link, near, far[..k]) % U8
    {
      var n := far[k];
      assert far[..k + 1][..k] == far[..k];
      var known := TransmitsTo(link, n.ip);
      var alpha := if known then 2 else 1;
      AddMod(TotalLoad(own, link, near, far[..k]), n.load * alpha / 2);
      load := (load + n.load * alpha / 2) % U8;
      k := k + 1;
    }
    assert far[..k] == far;
  }

  /** The search of the transmitter's table; empty slots do not match. */
  method TransmitsTo(link: Link, ip: Ip) returns (known: bool)
    ensures known <==> ip != 0 && ip in link.neighTx
  {
    for i := 0 to |link.neighTx|
      invariant ip == 0 || ip !in link.neighTx[..i]
    {
      if link.neighTx[i] != 0 {
        if link.neighTx[i] == ip {
          return true;
        }
      }
    }
    return false;
  }

  lemma AddMod(a: nat, b: nat)
    ensures (a % U8 + b) % U8 == (a + b) % U8
  {
    var q := a / U8;
    assert a + b == a % U8 + b + q * U8;
    ModShift(a % U8 + b, q);
  }

  lemma {:induction false} ModShift(x: nat, q: nat)
    ensures (x + q * U8) % U8 == x % U8
  {
    if q > 0 {
      ModShift(x, q - 1);
      assert x + q * U8 == x + (q - 1) * U8 + U8;
    }
  }

  /** What the neighbours add to the load. A one-hop neighbour counts twice if the transmitter does not hear it; a
      two-hop neighbour counts in full if the transmitter hears it, and by half otherwise. */
  lemma NeighboursAdd(own: nat, link: Link, near: seq<Loaded>, far: seq<Loaded>, n: Loaded)
    ensures var heard := n.ip != 0 && n.ip in link.neighTx;
      && TotalLoad(own, link, near, far + [n]) - TotalLoad(own, link, near, far)
           == (if heard then n.load else n.load / 2)
      && TotalLoad(own, link, near + [n], far) - TotalLoad(own, link, near, far)
           == (if n.ip == link.ip then link.load else if heard then n.load else n.load + n.load)
  {
    assert (far + [n])[..|far|] == far;
    OneHopAdds(own, link, near, far, n);
  }

  lemma {:induction false} OneHopAdds(own: nat, link: Link, near: seq<Loaded>, far: seq<Loaded>, n: Loaded)
    ensures TotalLoad(own, link, near + [n], far) == TotalLoad(own, link, near, far) + OneHopLoad(link, n)
    decreases |far|
  {
    if far == [] {
      assert (near + [n])[..|near|] == near;
    } else {
      hide OneHopLoad, TwoHopLoad;
      OneHopAdds(own, link, near, far[..|far| - 1], n);
    }
  }

  /** A hop under ETT costs the time of a probe packet at the rate received, for as many sendings as the delivery ratio
      makes necessary, rounded down. */
  lemma EttExactly(link: Link, path: nat)
    requires link.Valid() && path + MAX_INCREMENT < U32
    ensures EttMetric(link, path).Total? <==> link.recvRate > 0 && link.sendRate > 0 && link.etx > 0
    ensures EttMetric(link, path).Total? ==>
      var cost := EttMetric(link, path).path - path;
      cost * (link.recvRate * link.etx) <= PROBE_PACKET * 1000 < (cost + 1) * (link.recvRate * link.etx)
  {
    if link.Measured() {
      EttGrows(link, path);
      ProductBound(link.recvRate, link.etx, 540, 100);
      var d := link.recvRate * link.etx;
      QuotientIs(PROBE_PACKET * 1000, d);
      DivAtMost(PROBE_PACKET * 1000, d);
      ModSmall(path + PROBE_PACKET * 1000 / d, U32);
    }
  }

  /** A hop under WCIM costs the time of an average packet of the flow over the bandwidth that is left, rounded down. */
  lemma WcimExactly(own: nat, link: Link, near: seq<Loaded>, far: seq<Loaded>, tos: Tos, path: nat)
    requires link.Valid() && path + MAX_INCREMENT < U32
    requires WcimMetric(own, link, near, far, tos, path).Total?
    ensures var flow := FlowType(tos).value;
      var bw := Residual(link, flow, TotalLoad(own, link, near, far) % U8);
      var cost := WcimMetric(own, link, near, far, tos, path).path - path;
      bw > flow.avgRate && cost * bw <= flow.avgSize * 8000 < (cost + 1) * bw
  {
    hide Residual, TotalLoad;
    var flow := FlowType(tos).value;
    var bw := Residual(link, flow, TotalLoad(own, link, near, far) % U8);
    QuotientIs(flow.avgSize * 8000, bw);
    DivAtMost(flow.avgSize * 8000, bw);
    ModSmall(path + flow.avgSize * 8000 / bw, U32);
  }

  /** The coefficient is the share of the air time, headers and waits included, that the payload takes, in percent
      rounded down. Times are in tenths of a microsecond, rounded down as well. */
  lemma CoefExactly(size: nat, rate: nat)
    requires 0 < size <= 1472 && 0 < rate
    ensures var payload, packet := size * 8000 / rate, (size * 8000 + 470000) / rate + 12200;
      var coef := ComputeCoef(size, rate);
      coef * packet <= payload * 100 < (coef + 1) * packet
  {
    var a := size * 8000;
    var b := a + 470 * 1000;
    ModSmall(a, U32);
    ModSmall(b, U32);
    DivAtMost(a, rate);
    DivAtMost(b, rate);
    ModSmall(b / rate + 122 * 100, U32);
    hide Share;
    assert Payload(a, rate) == a / rate && AirTime(a, rate) == b / rate + 12200;
    CoefParts(a, rate);
    hide Payload, AirTime;
    ShareExactly(Payload(a, rate), AirTime(a, rate));
  }

  lemma ShareExactly(nominal: nat, total: nat)
    requires nominal < total && nominal <= 11776000
    ensures Share(nominal, total) * total <= nominal * 100 < (Share(nominal, total) + 1) * total
  {
    var n := nominal * 100;
    ModSmall(n, U32);
    DivBounds(n, total, 100);
    ModSmall(n / total, U8);
    QuotientIs(n, total);
  }

  /** Under ETT every hop lengthens the path, by a bounded amount. */
  lemma EttGrows(link: Link, path: nat)
    requires link.Valid() && link.Measured() && path + MAX_INCREMENT < U32
    ensures EttMetric(link, path).Total?
    ensures path + 218 <= EttMetric(link, path).path <= path + MAX_INCREMENT
  {
    ProductBound(link.recvRate, link.etx, 540, 100);
    DivBounds(PROBE_PACKET * 1000, link.recvRate * link.etx, 218);
    DivAtMost(PROBE_PACKET * 1000, link.recvRate * link.etx);
  }

  /** Under WCIM every hop that accepts a flow of known type lengthens the path, by a bounded amount. */
  lemma WcimGrows(own: nat, link: Link, near: seq<Loaded>, far: seq<Loaded>, tos: Tos, path: nat)
    requires link.Valid() && path + MAX_INCREMENT < U32
    requires WcimMetric(own, link, near, far, tos, path).Total?
    ensures path + 20 <= WcimMetric(own, link, near, far, tos, path).path <= path + MAX_INCREMENT
  {
    hide Residual, TotalLoad;
    var flow := FlowType(tos).value;
    var bw := Residual(link, flow, TotalLoad(own, link, near, far) % U8);
    assert 172 <= flow.avgSize <= 1472 && bw > flow.avgRate >= 100;
    DivBounds(flow.avgSize * 8000, bw, 20);
    DivAtMost(flow.avgSize * 8000, bw);
  }

  /** A flow without a type is not refused under WCIM: on a measured link its missing entry is used. */
  lemma WcimNeedsFlowType(own: nat, link: Link, near: seq<Loaded>, far: seq<Loaded>, tos: Tos, path: nat)
    requires link.Valid()
    ensures WcimMetric(own, link, near, far, tos, path) == NullFlow <==> link.Measured() && FlowType(tos) == None
  {
  }

  lemma CoefBound(size: nat, rate: nat)
    requires size <= 1472 && 0 < rate
    ensures ComputeCoef(size, rate) <= 99
  {
    hide Share, Payload, AirTime;
    CoefParts(size * 8000, rate);
    ShareBound(Payload(size * 8000, rate), AirTime(size * 8000, rate));
  }

  lemma CoefParts(a: nat, rate: nat)
    requires a <= 11776000 && 0 < rate
    ensures Payload(a, rate) < AirTime(a, rate) && Payload(a, rate) <= 11776000
  {
    var b := a + 470 * 1000;
    ModSmall(a, U32);
    ModSmall(b, U32);
    DivMono(a, b, rate);
    DivAtMost(a, rate);
    DivAtMost(b, rate);
    ModSmall(b / rate + 122 * 100, U32);
  }

  lemma ShareBound(nominal: nat, total: nat)
    requires nominal < total && nominal <= 11776000
    ensures Share(nominal, total) <= 99
  {
    var n := nominal * 100;
    ModSmall(n, U32);
    DivBounds(n, total, 100);
    ModSmall(n / total, U8);
  }

  // ---- Admission ----

  /** The bandwidth of a link for packets of a size, before any load. */
  function Capacity(link: Link, flow: Flow): nat {
    link.recvRate * link.etx * ComputeCoef(flow.avgSize, link.recvRate) / 100
  }

  lemma CapacityFits(link: Link, flow: Flow)
    requires link.Valid() && link.Measured() && flow.avgSize <= 1472
    ensures Capacity(link, flow) < U16
  {
    hide ComputeCoef;
    var coef := ComputeCoef(flow.avgSize, link.recvRate);
    CoefBound(flow.avgSize, link.recvRate);
    ProductBound(link.recvRate, link.etx, 540, 100);
    var p := link.recvRate * link.etx;
    MulMono(p, 54000, coef);
    DivMono(p * coef, 5346000, 100);
  }

  /** What admission is meant to be: the load leaves some bandwidth, and that exceeds the rate of the flow. */
  predicate Fits(capacity: nat, load: nat, rate: nat) {
    load <= 100 && capacity * (100 - load) / 100 > rate
  }

  /** An overload that is admitted all the same. In eight bits it either passes for a percentage, or leaves a negative
      remainder that passes for a large bandwidth in 16 bits. */
  predicate Overlooked(capacity: nat, load: nat, rate: nat) {
    && load > 100
    && var cut := load % U8;
       if cut <= 100 then capacity * (100 - cut) / 100 > rate
       else
         var missing := capacity * (cut - 100) / 100;
         missing % U16 != 0 && U16 - missing % U16 > rate
  }

  /** What a load in eight bits leaves of the bandwidth, in 16 bits. */
  lemma ResidualExactly(link: Link, flow: Flow, cut: nat)
    requires link.Valid() && link.Measured() && flow.avgSize <= 1472 && cut < U8
    ensures cut <= 100 ==> Residual(link, flow, cut) == Capacity(link, flow) * (100 - cut) / 100
    ensures cut > 100 ==>
      var missing := Capacity(link, flow) * (cut - 100) / 100;
      Residual(link, flow, cut) == if missing % U16 == 0 then 0 else U16 - missing % U16
  {
    hide ComputeCoef;
    CapacityFits(link, flow);
    var bw := Capacity(link, flow);
    assert link.recvRate * link.etx * ComputeCoef(flow.avgSize, link.recvRate) / 100 % U16 == bw by {
      ModSmall(bw, U16);
    }
    hide Capacity;
    if cut <= 100 {
      MulMono(100 - cut, 100, bw);
      DivMono((100 - cut) * bw, 100 * bw, 100);
      assert (100 - cut) * bw == bw * (100 - cut);
      ModSmall(bw * (100 - cut) / 100, U16);
    } else {
      TruncatedNegative(bw, cut - 100);
      NegativeMod(bw * (cut - 100) / 100);
    }
  }

  lemma TruncatedNegative(bw: int, d: int)
    requires bw >= 0 && d >= 0
    ensures TruncatedDiv(bw * -d, 100) == -(bw * d / 100)
  {
    assert bw * -d == -(bw * d);
  }

  lemma NegativeMod(q: int)
    requires q >= 0
    ensures (-q) % U16 == if q % U16 == 0 then 0 else U16 - q % U16
  {
    var k, r := q / U16, q % U16;
    assert q == k * U16 + r;
    if r == 0 {
      assert -q == -k * U16;
    } else {
      assert -q == (-k - 1) * U16 + (U16 - r);
    }
  }

  /** When the code judges a flow as it is meant to: always, unless the load around the node exceeds 100 percent and
      is overlooked. */
  lemma AdmissionExactly(own: nat, link: Link, near: seq<Loaded>, far: seq<Loaded>, tos: Tos, path: nat)
    requires link.Valid() && link.Measured() && FlowType(tos).Some?
    ensures var flow := FlowType(tos).value;
      var load := TotalLoad(own, link, near, far);
      (WcimMetric(own, link, near, far, tos, path).Total? <==> Fits(Capacity(link, flow), load, flow.avgRate))
      <==> !Overlooked(Capacity(link, flow), load, flow.avgRate)
  {
    hide Residual, Capacity, TotalLoad;
    var flow := FlowType(tos).value;
    var load := TotalLoad(own, link, near, far);
    ResidualExactly(link, flow, load % U8);
    if load <= 100 {
      ModSmall(load, U8);
    }
  }

  /** Overloads of both kinds: one percent too many, and a hidden neighbour that brings the load to 256 percent, which
      is zero in eight bits. */
  lemma OverloadAdmits()
    ensures var link := Link(1, 540, 540, 100, 0, []);
            && WcimMetric(100, link, [], [], 0x0c, 0) == Refused
            && WcimMetric(101, link, [], [], 0x0c, 0).Total?
            && TotalLoad(100, link, [Loaded(2, 78)], []) == 256
            && WcimMetric(100, link, [Loaded(2, 78)], [], 0x0c, 0).Total?
  {
    hide TotalLoad, WcimMetric, Residual;
    var link := Link(1, 540, 540, 100, 0, []);
    var hidden := [Loaded(2, 78)];
    OverloadResidual();
    LoadsAround(link);
    VoiceAdmission(100, link, [], 100);
    VoiceAdmission(101, link, [], 101);
    VoiceAdmission(100, link, hidden, 0);
  }

  lemma LoadsAround(link: Link)
    requires link.ip == 1 && link.neighTx == []
    ensures TotalLoad(100, link, [], []) == 100 && TotalLoad(101, link, [], []) == 101
    ensures TotalLoad(100, link, [Loaded(2, 78)], []) == 256
  {
    assert [Loaded(2, 78)][..0] == [];
  }

  lemma VoiceAdmission(own: nat, link: Link, near: seq<Loaded>, cut: nat)
    requires link.Valid() && link.Measured() && TotalLoad(own, link, near, []) % U8 == cut
    ensures WcimMetric(own, link, near, [], 0x0c, 0)
         == if Residual(link, Flow(100, 172), cut) <= 100 then Refused
            else Total(172 * 8000 / Residual(link, Flow(100, 172), cut) % U32)
  {
    hide Residual, TotalLoad;
  }

  lemma OverloadResidual()
    ensures Residual(Link(1, 540, 540, 100, 0, []), Flow(100, 172), 100) == 0
    ensures Residual(Link(1, 540, 540, 100, 0, []), Flow(100, 172), 101) == 65450
    ensures Residual(Link(1, 540, 540, 100, 0, []), Flow(100, 172), 0) == 8640
  {
    hide ComputeCoef;
    VoiceCoef();
    assert 540 * 100 * 16 / 100 % U16 == 8640;
    assert TruncatedDiv(-8640, 100) == -86;
  }

  lemma VoiceCoef()
    ensures ComputeCoef(172, 540) == 16
  {
    hide Share;
    assert ComputeCoef(172, 540) == Share(2548, 15618);
    VoiceShare();
  }

  lemma VoiceShare()
    ensures Share(2548, 15618) == 16
  {
  }
}
