/** Packets held while a route is looked for (packet_queue.c): a circular doubly linked list around a sentinel,
    filled at one end, searched from the other. */
module PacketQueues {
  import opened Types

  const IPQ_QMAX_DEFAULT := 1024

  /** A held packet: its identity, the flow recorded from its header, and the devices it is bound to. */
  datatype Packet = Packet(id: nat, flow: Key, inDev: Option<int>, outDev: Option<int>)

  datatype Verdict = Accept | Drop

  /** The comparison handed to `ipq_dequeue`: none, `ip_cmp` or `dev_cmp`. */
  datatype Compare = Any | ByFlow(key: Key) | ByDevice(ifindex: int)
  {
    predicate Hits(p: Packet) {
      match this
      case Any => true
      case ByFlow(key) => p.flow == key
      case ByDevice(ifindex) => p.inDev == Some(ifindex) || p.outDev == Some(ifindex)
    }
  }

  /** Position of the oldest packet that the comparison hits, or the length when there is none. */
  function FirstHit(q: seq<Packet>, c: Compare): (k: nat)
    ensures k <= |q|
    ensures forall j :: 0 <= j < k ==> !c.Hits(q[j])
    ensures k < |q| ==> c.Hits(q[k])
  {
    if q == [] || c.Hits(q[0]) then 0 else 1 + FirstHit(q[1..], c)
  }

  /** The packets that the comparison hits (or misses), oldest first. */
  function Picked(q: seq<Packet>, c: Compare, hit: bool): seq<Packet> {
    if q == [] then []
    else (if c.Hits(q[0]) == hit then [q[0]] else []) + Picked(q[1..], c, hit)
  }

  function Judged(q: seq<Packet>, v: Verdict): (r: seq<(Packet, Verdict)>)
    ensures |r| == |q| && forall i :: 0 <= i < |q| ==> r[i] == (q[i], v)
  {
    seq(|q|, i requires 0 <= i < |q| => (q[i], v))
  }

  /** The packets of a log of verdicts. */
  function Packets(log: seq<(Packet, Verdict)>): seq<Packet> {
    seq(|log|, i requires 0 <= i < |log| => log[i].0)
  }

  /** Every packet is picked or left, never both. */
  lemma {:induction false} PickedSplits(q: seq<Packet>, c: Compare)
    ensures multiset(q) == multiset(Picked(q, c, true)) + multiset(Picked(q, c, false))
    ensures forall p :: p in Picked(q, c, true) ==> c.Hits(p)
    ensures forall p :: p in Picked(q, c, false) ==> !c.Hits(p)
  {
    if q != [] {
      var p, rest := q[0], q[1..];
      PickedSplits(rest, c);
      assert q == [p] + rest;
      assert Picked(q, c, c.Hits(p)) == [p] + Picked(rest, c, c.Hits(p));
      assert Picked(q, c, !c.Hits(p)) == Picked(rest, c, !c.Hits(p));
      hide Picked;
    }
  }

  /** Taking the oldest hit out advances the picked subsequence by one and leaves the rest alone. */
  lemma {:induction false} PickOne(q: seq<Packet>, c: Compare)
    requires FirstHit(q, c) < |q|
    ensures Picked(q, c, true) == [q[FirstHit(q, c)]] + Picked(RemoveAt(q, FirstHit(q, c)), c, true)
    ensures Picked(q, c, false) == Picked(RemoveAt(q, FirstHit(q, c)), c, false)
  {
    var k := FirstHit(q, c);
    if k == 0 {
      assert RemoveAt(q, 0) == q[1..];
    } else {
      PickOne(q[1..], c);
      assert RemoveAt(q, k)[1..] == RemoveAt(q[1..], k - 1);
    }
  }

  lemma {:induction false} PickNone(q: seq<Packet>, c: Compare)
    requires FirstHit(q, c) == |q|
    ensures Picked(q, c, true) == [] && Picked(q, c, false) == q
  {
    if q != [] {
      PickNone(q[1..], c);
    }
  }

  lemma PickStep(q: seq<Packet>, c: Compare)
    ensures FirstHit(q, c) == |q| ==> Picked(q, c, true) == [] && Picked(q, c, false) == q
    ensures FirstHit(q, c) < |q| ==>
              && Picked(q, c, true) == [q[FirstHit(q, c)]] + Picked(RemoveAt(q, FirstHit(q, c)), c, true)
              && Picked(q, c, false) == Picked(RemoveAt(q, FirstHit(q, c)), c, false)
  {
    if FirstHit(q, c) < |q| {
      PickOne(q, c);
    } else {
      PickNone(q, c);
    }
  }

  class Element {
    var packet: Packet
    var prev: Element
    var next: Element

    constructor (packet: Packet)
      ensures this.packet == packet && prev == this && next == this
    {
      this.packet := packet;
      prev, next := this, this;
    }
  }

  class PacketQueue {
    const head: Element
    var len: int
    const maxlen: nat
    var flushing: bool
    var terminate: bool

    /** The calls of `nf_reinject`, in order. */
    var reinjected: seq<(Packet, Verdict)>

    /** The held packets from the oldest to the newest, that is from `head` along `prev`. */
    ghost var Nodes: seq<Element>
    ghost var Contents: seq<Packet>

    /** Every packet that was ever taken in. */
    ghost var Accepted: multiset<Packet>
    ghost var Repr: set<Element>

    ghost predicate Valid()
      reads this, Repr
    {
      ValidBut(multiset{})
    }

    /** The invariant while the packets of `out` are between removal and reinjection: the ring spells out
        `Contents`, and each packet taken in is still held, or out, or reinjected, and that once. */
    ghost predicate ValidBut(out: multiset<Packet>)
      reads this, Repr
    {
      Ring() && Holds() && Balanced(out)
    }

    ghost predicate Holds()
      reads this`Nodes, this`Contents, this`Repr, Repr`packet
    {
      && |Contents| == |Nodes|
      && (forall i :: 0 <= i < |Nodes| ==> Nodes[i] in Repr && Nodes[i].packet == Contents[i])
    }

    ghost predicate Balanced(out: multiset<Packet>)
      reads this`len, this`Contents, this`Accepted, this`reinjected
    {
      && len == |Contents| <= maxlen
      && Accepted == multiset(Contents) + out + multiset(Packets(reinjected))
    }

    /** Position `i` of the ring; the sentinel closes it at both ends. */
    ghost function At(i: int): Element
      reads this`Nodes
    {
      if 0 <= i < |Nodes| then Nodes[i] else head
    }

    ghost predicate Ring()
      reads this`Nodes, this`Repr, Repr`next, Repr`prev
    {
      && head in Repr && Distinct(Nodes)
      && (forall i :: 0 <= i < |Nodes| ==> Nodes[i] in Repr && Nodes[i] != head)
      && head.prev == At(0) && head.next == At(|Nodes| - 1)
      && (forall i {:trigger Nodes[i].prev} :: 0 <= i < |Nodes| ==> Nodes[i].prev == At(i + 1))
      && (forall i {:trigger Nodes[i].next} :: 0 <= i < |Nodes| ==> Nodes[i].next == At(i - 1))
    }

    constructor (maxlen: nat)
      ensures Valid() && fresh(Repr) && this.maxlen == maxlen
      ensures Contents == [] && reinjected == [] && Accepted == multiset{} && !flushing && !terminate
    {
      var h := new Element(Packet(0, Key(0, 0, 0), None, None));
      head := h;
      len, this.maxlen := 0, maxlen;
      flushing, terminate := false, false;
      reinjected := [];
      Nodes, Contents, Accepted, Repr := [], [], multiset{}, {h};
    }

    /** Takes a packet in, as the newest, unless the queue is full or being emptied. */
    method Enqueue(p: Packet) returns (r: int)
      requires Valid()
      modifies this, Repr`next, Repr`prev
      ensures Valid() && Repr >= old(Repr) && fresh(Repr - old(Repr))
      ensures reinjected == old(reinjected) && flushing == old(flushing) && terminate == old(terminate)
      ensures r > 0 <==> old(|Contents|) < maxlen && !flushing && !terminate
      ensures r > 0 ==> Contents == old(Contents) + [p] && r == |Contents| && Accepted == old(Accepted) + multiset{p}
      ensures r <= 0 ==> r == -16 && Contents == old(Contents) && Accepted == old(Accepted)
    {
      hide PacketQueue.ValidBut;
      var e := new Element(p);
      LenIsLength();
      if len >= maxlen {
        return -16;
      }
      if flushing || terminate {
        return -16;
      }
      Append(e);
      LenIsLength();
      return len;
    }

    lemma LenIsLength()
      requires Valid()
      ensures len == |Contents| <= maxlen
    {
    }

    method Append(e: Element)
      requires Valid() && e !in Repr && len < maxlen
      modifies this`len, this`Nodes, this`Contents, this`Accepted, this`Repr, Repr`next, Repr`prev, e`next, e`prev
      ensures Valid() && Repr == old(Repr) + {e}
      ensures Contents == old(Contents) + [e.packet] && Accepted == old(Accepted) + multiset{e.packet}
    {
      hide Packets, PacketQueue.Ring;
      ListAdd(e);
      len := len + 1;
      Contents, Accepted := Contents + [e.packet], Accepted + multiset{e.packet};
    }

    /** Removes and returns the oldest packet that the comparison hits. */
    method Dequeue(c: Compare) returns (r: Option<Packet>)
      requires Valid()
      modifies this`len, this`Nodes, this`Contents, Repr`next, Repr`prev
      ensures ValidBut(if r.Some? then multiset{r.value} else multiset{})
      ensures r == None <==> FirstHit(old(Contents), c) == |old(Contents)|
      ensures r == None ==> Contents == old(Contents)
      ensures r.Some? ==> r.value == old(Contents)[FirstHit(old(Contents), c)]
      ensures r.Some? ==> Contents == RemoveAt(old(Contents), FirstHit(old(Contents), c))
      ensures Accepted == old(Accepted)
    {
      hide FirstHit, Packets, Distinct;
      var e := head.prev;
      ghost var k := 0;
      while e != head
        invariant k <= |Nodes| && e == At(k)
        invariant forall j :: 0 <= j < k ==> !c.Hits(Contents[j])
        decreases |Nodes| - k
      {
        if c.Hits(e.packet) {
          assert k == FirstHit(Contents, c);
          r := Some(e.packet);
          TakeOut(e, k);
          return;
        }
        e := e.prev;
        k := k + 1;
      }
      r := None;
    }

    /** Removes the element at position `k`. */
    method TakeOut(e: Element, ghost k: nat)
      requires Valid() && k < |Nodes| && e == Nodes[k]
      modifies this`len, this`Nodes, this`Contents, Repr`next, Repr`prev
      ensures ValidBut(multiset{old(Contents)[k]})
      ensures Contents == RemoveAt(old(Contents), k)
    {
      hide Distinct, Packets, PacketQueue.Ring;
      RemoveAtMultiset(Contents, k);
      ListDel(e, k);
      len := len - 1;
      Contents := RemoveAt(Contents, k);
    }

    /** `nf_reinject`: the packet leaves with a verdict. */
    method Reinject(p: Packet, v: Verdict)
      requires ValidBut(multiset{p})
      modifies this`reinjected
      ensures Valid() && reinjected == old(reinjected) + [(p, v)]
    {
      reinjected := reinjected + [(p, v)];
      assert Packets(reinjected) == Packets(old(reinjected)) + [p];
    }

    /** Gives all packets that the comparison hits the same verdict, oldest first. */
    method ReinjectAll(c: Compare, v: Verdict)
      requires Valid()
      modifies this`len, this`reinjected, this`Nodes, this`Contents, Repr`next, Repr`prev
      ensures Valid()
      ensures reinjected == old(reinjected) + Judged(Picked(old(Contents), c, true), v)
      ensures Contents == Picked(old(Contents), c, false)
    {
      hide FirstHit, Picked, Packets, PacketQueue.ValidBut;
      ghost var gone := [];
      PickStep(Contents, c);
      var e := Dequeue(c);
      while e.Some?
        invariant ValidBut(if e.Some? then multiset{e.value} else multiset{})
        invariant Accepted == old(Accepted)
        invariant reinjected == old(reinjected) + Judged(gone, v)
        invariant e.Some? ==> Picked(old(Contents), c, true) == gone + [e.value] + Picked(Contents, c, true)
        invariant e.None? ==> Picked(old(Contents), c, true) == gone && Picked(Contents, c, false) == Contents
        invariant Picked(old(Contents), c, false) == Picked(Contents, c, false)
        decreases |Contents|, e.Some?
      {
        Reinject(e.value, v);
        gone := gone + [e.value];
        PickStep(Contents, c);
        e := Dequeue(c);
      }
    }

    /** A route was found: the packets of the flow are sent on, in arrival order; the others stay. */
    method SendIp(key: Key)
      requires Valid()
      modifies this`len, this`reinjected, this`Nodes, this`Contents, Repr`next, Repr`prev
      ensures Valid()
      ensures reinjected == old(reinjected) + Judged(Picked(old(Contents), ByFlow(key), true), Accept)
      ensures Contents == Picked(old(Contents), ByFlow(key), false)
    {
      ReinjectAll(ByFlow(key), Accept);
    }

    /** No route was found: the packets of the flow are dropped, in arrival order; the others stay. */
    method DropIp(key: Key)
      requires Valid()
      modifies this`len, this`reinjected, this`Nodes, this`Contents, Repr`next, Repr`prev
      ensures Valid()
      ensures reinjected == old(reinjected) + Judged(Picked(old(Contents), ByFlow(key), true), Drop)
      ensures Contents == Picked(old(Contents), ByFlow(key), false)
    {
      ReinjectAll(ByFlow(key), Drop);
    }

    /** A device went down: the packets bound to it are dropped. */
    method DevDrop(ifindex: int)
      requires Valid()
      modifies this`len, this`reinjected, this`Nodes, this`Contents, Repr`next, Repr`prev
      ensures Valid()
      ensures reinjected == old(reinjected) + Judged(Picked(old(Contents), ByDevice(ifindex), true), Drop)
      ensures Contents == Picked(old(Contents), ByDevice(ifindex), false)
    {
      ReinjectAll(ByDevice(ifindex), Drop);
    }

    /** Drops everything. Afterwards the queue accepts packets again unless it is terminated. */
    method Flush()
      requires Valid()
      modifies this`len, this`flushing, this`reinjected, this`Nodes, this`Contents
      modifies Repr`next, Repr`prev
      ensures Valid() && !flushing
      ensures reinjected == old(reinjected) + Judged(old(Contents), Drop)
      ensures Contents == []
    {
      flushing := true;
      ReinjectAll(Any, Drop);
      flushing := false;
      PickAny(old(Contents));
    }

    lemma {:induction false} PickAny(q: seq<Packet>)
      ensures Picked(q, Any, true) == q && Picked(q, Any, false) == []
    {
      if q != [] {
        PickAny(q[1..]);
      }
    }

    /** `list_add`: the element goes in next to the sentinel, as the newest. */
    method ListAdd(e: Element)
      requires Ring() && e !in Repr
      modifies this`Nodes, this`Repr, Repr`next, Repr`prev, e`next, e`prev
      ensures Ring() && Nodes == old(Nodes) + [e] && Repr == old(Repr) + {e}
    {
      var next := head.next;
      next.prev := e;
      e.next := next;
      e.prev := head;
      head.next := e;
      Nodes, Repr := Nodes + [e], Repr + {e};
    }

    /** `list_del`: the element at position `k` leaves the ring. */
    method ListDel(e: Element, ghost k: nat)
      requires Ring() && k < |Nodes| && e == Nodes[k]
      modifies this`Nodes, Repr`next, Repr`prev
      ensures Ring() && Nodes == RemoveAt(old(Nodes), k)
    {
      var prev, next := e.prev, e.next;
      next.prev := prev;
      prev.next := next;
      Nodes := RemoveAt(Nodes, k);
    }
  }
}
