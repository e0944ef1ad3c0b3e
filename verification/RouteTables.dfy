/** The routing table (aodv_route.c): a doubly linked list of routes kept in order of destination, and the searches
    that stop early because of that order. */
module RouteTables {
  import opened Types

  datatype State = Invalid | Replied | Active

  /** A route: its key, the id and metric it was accepted with, hops, next and previous hop, whether it is a route
      to the node itself or to a neighbour, its state, and the time until which that lasts. */
  datatype Route = Route(key: Key, id: nat, metric: nat, hops: nat, nextHop: Ip, lastHop: Ip,
                         self: bool, neigh: bool, state: State, lifetime: nat)

  // ---- What the operations mean ----

  ghost predicate SortedByDst(rs: seq<Route>) {
    forall i, j :: 0 <= i < j < |rs| ==> rs[i].key.dst <= rs[j].key.dst
  }

  /** No two routes have the same source, destination and type of service. */
  ghost predicate UniqueKeys(rs: seq<Route>) {
    forall i, j :: 0 <= i < j < |rs| ==> rs[i].key != rs[j].key
  }

  /** Where a route to `dst` goes: before the first one whose destination is not smaller. */
  function PlaceFor(rs: seq<Route>, dst: Ip): (k: nat)
    ensures k <= |rs|
    ensures forall i :: 0 <= i < k ==> rs[i].key.dst < dst
    ensures k < |rs| ==> dst <= rs[k].key.dst
  {
    if rs == [] || dst <= rs[0].key.dst then 0 else 1 + PlaceFor(rs[1..], dst)
  }

  function Insert(rs: seq<Route>, r: Route): seq<Route> {
    InsertAt(rs, PlaceFor(rs, r.key.dst), r)
  }

  /** Position of the first route with the key anywhere in the table, or its length. */
  function Find(rs: seq<Route>, key: Key): (k: nat)
    ensures k <= |rs|
    ensures forall i :: 0 <= i < k ==> rs[i].key != key
    ensures k < |rs| ==> rs[k].key == key
  {
    if rs == [] || rs[0].key == key then 0 else 1 + Find(rs[1..], key)
  }

  /** Position of the first route to the destination with the id, or the length of the table. */
  function FindById(rs: seq<Route>, dst: Ip, id: nat): (k: nat)
    ensures k <= |rs|
    ensures forall i :: 0 <= i < k ==> rs[i].key.dst != dst || rs[i].id != id
    ensures k < |rs| ==> rs[k].key.dst == dst && rs[k].id == id
  {
    if rs == [] || (rs[0].key.dst == dst && rs[0].id == id) then 0 else 1 + FindById(rs[1..], dst, id)
  }

  lemma InsertKeepsOrder(rs: seq<Route>, r: Route)
    requires SortedByDst(rs)
    ensures SortedByDst(Insert(rs, r))
    ensures multiset(Insert(rs, r)) == multiset(rs) + multiset{r}
  {
    hide PlaceFor;
    InsertAtMultiset(rs, PlaceFor(rs, r.key.dst), r);
  }

  /** The key stays unique when a route is inserted only after a search for its key has failed. */
  lemma {:induction false} InsertKeepsUnique(rs: seq<Route>, r: Route)
    requires UniqueKeys(rs)
    ensures UniqueKeys(Insert(rs, r)) <==> Find(rs, r.key) == |rs|
  {
    hide PlaceFor, Find;
    var k := PlaceFor(rs, r.key.dst);
    var rs' := Insert(rs, r);
    if Find(rs, r.key) < |rs| {
      var i := Find(rs, r.key);
      assert rs'[if i < k then i else i + 1].key == rs'[k].key;
    }
  }

  // ---- The list ----

  class Node {
    var route: Route
    var next: Node?
    var prev: Node?

    constructor (route: Route)
      ensures this.route == route && next == null && prev == null
    {
      this.route, next, prev := route, null, null;
    }
  }

  class RouteTable {
    var head: Node?

    /** The nodes from `head` along `next`, their routes, and the nodes the table owns. */
    ghost var Nodes: seq<Node>
    ghost var Contents: seq<Route>
    ghost var Repr: set<Node>

    ghost predicate Valid()
      reads this, Repr
    {
      Payloads() && Links() && SortedByDst(Contents)
    }

    ghost predicate Payloads()
      reads this`Nodes, this`Contents, this`Repr, Repr`route
    {
      && |Contents| == |Nodes|
      && (forall i :: 0 <= i < |Nodes| ==> Nodes[i] in Repr && Nodes[i].route == Contents[i])
    }

    /** `next` and `prev` run through `Nodes` and end in null on both sides. */
    ghost predicate Links()
      reads this`head, this`Nodes, this`Repr, Repr`next, Repr`prev
    {
      && Distinct(Nodes)
      && (forall i :: 0 <= i < |Nodes| ==> Nodes[i] in Repr)
      && head == NodeAt(0)
      && (forall i {:trigger Nodes[i].next} :: 0 <= i < |Nodes| ==> Nodes[i].next == NodeAt(i + 1))
      && (forall i {:trigger Nodes[i].prev} :: 0 <= i < |Nodes| ==> Nodes[i].prev == NodeAt(i - 1))
    }

    ghost function NodeAt(i: int): Node?
      reads this`Nodes
    {
      if 0 <= i < |Nodes| then Nodes[i] else null
    }

    /** A search that ended at position `k` has returned the node there, or null at the end. */
    ghost predicate Found(r: Node?, k: nat)
      reads this`Nodes, this`Contents, this`Repr, (if r == null then {} else {r})`route
    {
      && (r == null <==> k == |Contents|)
      && (r != null ==> k < |Nodes| == |Contents| && r == Nodes[k] && r in Repr && r.route == Contents[k])
    }

    constructor ()
      ensures Valid() && Contents == [] && Repr == {}
    {
      head := null;
      Nodes, Contents, Repr := [], [], {};
    }

    /** `insert_aodv_route`. */
    method InsertRoute(n: Node)
      requires Valid() && n !in Repr && n.next == null && n.prev == null
      modifies this, Repr`next, Repr`prev, n`next, n`prev
      ensures Valid() && Repr == old(Repr) + {n}
      ensures Contents == Insert(old(Contents), n.route)
      ensures Found(n, PlaceFor(old(Contents), n.route.key.dst))
      ensures Nodes == InsertAt(old(Nodes), PlaceFor(old(Contents), n.route.key.dst), n)
    {
      hide PlaceFor, SortedByDst;
      var prevRoute: Node?, tmpRoute := null, head;
      ghost var k := 0;
      while tmpRoute != null && tmpRoute.route.key.dst < n.route.key.dst
        invariant k <= |Nodes| && tmpRoute == NodeAt(k) && prevRoute == NodeAt(k - 1)
        invariant forall i :: 0 <= i < k ==> Contents[i].key.dst < n.route.key.dst
        decreases |Nodes| - k
      {
        prevRoute := tmpRoute;
        tmpRoute := tmpRoute.next;
        k := k + 1;
      }
      assert k == PlaceFor(Contents, n.route.key.dst);
      InsertKeepsOrder(Contents, n.route);
      InsertRouteAt(n, prevRoute, tmpRoute, k);
    }

    method InsertRouteAt(n: Node, prevRoute: Node?, tmpRoute: Node?, ghost k: nat)
      requires Valid() && n !in Repr && n.next == null && n.prev == null
      requires k <= |Nodes| && tmpRoute == NodeAt(k) && prevRoute == NodeAt(k - 1) && k <= |Contents|
      requires SortedByDst(InsertAt(Contents, k, n.route))
      modifies this, Repr`next, Repr`prev, n`next, n`prev
      ensures Valid() && Repr == old(Repr) + {n}
      ensures Contents == InsertAt(old(Contents), k, n.route) && Found(n, k)
      ensures Nodes == InsertAt(old(Nodes), k, n)
    {
      hide SortedByDst;
      Contents, Repr := InsertAt(Contents, k, n.route), Repr + {n};
      Link(n, prevRoute, tmpRoute, k);
    }

    /** The four places a node can go: the head of the table, an empty table, its end, or between two nodes. */
    method Link(n: Node, prevRoute: Node?, tmpRoute: Node?, ghost k: nat)
      requires Links() && n in Repr && n !in Nodes && n.next == null && n.prev == null
      requires k <= |Nodes| && tmpRoute == NodeAt(k) && prevRoute == NodeAt(k - 1)
      modifies this`head, this`Nodes, Repr`next, Repr`prev
      ensures Links() && Nodes == InsertAt(old(Nodes), k, n)
    {
      if head != null && tmpRoute == head {
        head.prev := n;
        n.next := head;
        head := n;
      } else if head == null {
        head := n;
      } else if tmpRoute == null {
        n.next := null;
        n.prev := prevRoute;
        prevRoute.next := n;
      } else {
        tmpRoute.prev := n;
        n.next := tmpRoute;
        n.prev := prevRoute;
        prevRoute.next := n;
      }
      Nodes := InsertAt(Nodes, k, n);
    }

    /** A node of the table is where its route is. */
    lemma NodeFound(k: nat)
      requires Valid() && k < |Nodes|
      ensures Found(Nodes[k], k)
    {
    }

    /** `first_aodv_route`. */
    method First() returns (r: Node?)
      requires Valid()
      ensures Found(r, 0)
    {
      r := head;
    }

    method Next(n: Node, ghost k: nat) returns (r: Node?)
      requires Valid() && Found(n, k)
      ensures Found(r, k + 1)
    {
      r := n.next;
    }

    /** `remove_aodv_route`. */
    method RemoveRoute(n: Node, ghost k: nat)
      requires Valid() && k < |Nodes| && n == Nodes[k]
      modifies this, Repr`next, Repr`prev
      ensures Valid() && Repr == old(Repr) - {n}
      ensures k < |old(Contents)| && Contents == RemoveAt(old(Contents), k) && Found(old(n.next), k)
    {
      Unlink(n, k);
      Contents, Repr := RemoveAt(Contents, k), Repr - {n};
    }

    method Unlink(n: Node, ghost k: nat)
      requires Links() && k < |Nodes| && n == Nodes[k]
      modifies this`head, this`Nodes, Repr`next, Repr`prev
      ensures Links() && Nodes == RemoveAt(old(Nodes), k) && n !in Nodes
    {
      if head == n {
        head := n.next;
      }
      if n.prev != null {
        n.prev.next := n.next;
      }
      if n.next != null {
        n.next.prev := n.prev;
      }
      Nodes := RemoveAt(Nodes, k);
    }

    /** `find_aodv_route`: it leaves the table as soon as the destinations are past, and still finds a route with
        the key whenever there is one anywhere. */
    method FindRoute(key: Key) returns (r: Node?, ghost k: nat)
      requires Valid()
      ensures k == Find(Contents, key) && Found(r, Find(Contents, key))
    {
      hide Find;
      var tmpRoute := head;
      k := 0;
      while tmpRoute != null && tmpRoute.route.key.dst < key.dst
        invariant k <= |Nodes| && tmpRoute == NodeAt(k)
        invariant forall i :: 0 <= i < k ==> Contents[i].key.dst < key.dst
        decreases |Nodes| - k
      {
        tmpRoute := tmpRoute.next;
        k := k + 1;
      }
      if tmpRoute == null || tmpRoute.route.key.dst != key.dst {
        k := |Nodes|;
        return null, k;
      }
      while tmpRoute != null && tmpRoute.route.key.dst == key.dst
        invariant k <= |Nodes| && tmpRoute == NodeAt(k)
        invariant forall i :: 0 <= i < k ==> Contents[i].key != key
        decreases |Nodes| - k
      {
        if tmpRoute.route.key.src == key.src && tmpRoute.route.key.tos == key.tos {
          return tmpRoute, k;
        }
        tmpRoute := tmpRoute.next;
        k := k + 1;
      }
      k := |Nodes|;
      r := null;
    }

    /** `find_aodv_route_by_id`, which ignores source and type of service. */
    method FindRouteById(dst: Ip, id: nat) returns (r: Node?, ghost k: nat)
      requires Valid()
      ensures k == FindById(Contents, dst, id) && Found(r, FindById(Contents, dst, id))
    {
      hide FindById;
      var tmpRoute := head;
      k := 0;
      while tmpRoute != null && tmpRoute.route.key.dst < dst
        invariant k <= |Nodes| && tmpRoute == NodeAt(k)
        invariant forall i :: 0 <= i < k ==> Contents[i].key.dst < dst
        decreases |Nodes| - k
      {
        tmpRoute := tmpRoute.next;
        k := k + 1;
      }
      if tmpRoute == null || tmpRoute.route.key.dst != dst {
        k := |Nodes|;
        return null, k;
      }
      while tmpRoute != null && tmpRoute.route.key.dst == dst
        invariant k <= |Nodes| && tmpRoute == NodeAt(k)
        invariant forall i :: 0 <= i < k ==> Contents[i].key.dst != dst || Contents[i].id != id
        decreases |Nodes| - k
      {
        if tmpRoute.route.id == id {
          return tmpRoute, k;
        }
        tmpRoute := tmpRoute.next;
        k := k + 1;
      }
      k := |Nodes|;
      r := null;
    }

    /** Assigns to the fields of one route other than its key. */
    method Update(n: Node, ghost k: nat, route: Route)
      requires Valid() && k < |Nodes| && n == Nodes[k] && route.key == n.route.key
      modifies n`route, this`Contents
      ensures Valid() && k < |old(Contents)| && Contents == old(Contents)[k := route] && Found(n, k)
      ensures Repr == old(Repr) && Nodes == old(Nodes)
    {
      n.route := route;
      Contents := Contents[k := route];
      assert forall i :: 0 <= i < |Contents| ==> Contents[i].key == old(Contents)[i].key;
    }
  }
}
