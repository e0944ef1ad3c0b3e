/** The list of traffic sources and the allocator of their kernel routing tables (src_list.c). */
module SourceLists {
  import opened Types

  const NULL_IP: Ip := 0
  const DEFAULT_ROUTE_TABLE := 254
  const MAX_ROUTE_TABLES := 252

  /** A source, the number of its routes, and the number of its kernel table. */
  datatype Source = Source(ip: Ip, routes: int, table: nat)

  // ---- What the operations mean ----

  /** Position of the first entry of an address, or the length of the list. */
  function Find(ss: seq<Source>, ip: Ip): (k: nat)
    ensures k <= |ss|
    ensures forall i :: 0 <= i < k ==> ss[i].ip != ip
    ensures k < |ss| ==> ss[k].ip == ip
  {
    if ss == [] || ss[0].ip == ip then 0 else 1 + Find(ss[1..], ip)
  }

  predicate InUse(ss: seq<Source>, table: nat) {
    exists i :: 0 <= i < |ss| && ss[i].table == table
  }

  /** The smallest table number from `t` on that is not in use; 253 when there is none. */
  function FreeFrom(ss: seq<Source>, t: nat): (r: nat)
    requires t <= MAX_ROUTE_TABLES + 1
    ensures t <= r <= MAX_ROUTE_TABLES + 1
    ensures forall j :: t <= j < r ==> InUse(ss, j)
    ensures r <= MAX_ROUTE_TABLES ==> !InUse(ss, r)
    decreases MAX_ROUTE_TABLES + 1 - t
  {
    if t > MAX_ROUTE_TABLES || !InUse(ss, t) then t else FreeFrom(ss, t + 1)
  }

  predicate Exhausted(ss: seq<Source>) {
    FreeFrom(ss, 1) > MAX_ROUTE_TABLES
  }

  /** The default traffic of the node uses the main table; everybody else needs one of the 252. */
  function Insert(ss: seq<Source>, ip: Ip, me: Ip): Option<seq<Source>> {
    var routes := if ip == me then 1 else 0;
    if ip == NULL_IP then Some([Source(ip, routes, DEFAULT_ROUTE_TABLE)] + ss)
    else if Exhausted(ss) then None
    else Some([Source(ip, routes, FreeFrom(ss, 1))] + ss)
  }

  function Delete(ss: seq<Source>, ip: Ip): seq<Source> {
    if Find(ss, ip) < |ss| then RemoveAt(ss, Find(ss, ip)) else ss
  }

  // ---- What they keep ----

  /** Every source is listed once and has a table of its own, in the range of the allocator. */
  ghost predicate TablesOk(ss: seq<Source>) {
    && (forall i, j :: 0 <= i < j < |ss| ==> ss[i].ip != ss[j].ip && ss[i].table != ss[j].table)
    && (forall i :: 0 <= i < |ss| ==> TableOk(ss[i]))
  }

  predicate TableOk(s: Source) {
    if s.ip == NULL_IP then s.table == DEFAULT_ROUTE_TABLE else 1 <= s.table <= MAX_ROUTE_TABLES
  }

  lemma InsertKeepsTables(ss: seq<Source>, ip: Ip, me: Ip)
    requires TablesOk(ss) && Find(ss, ip) == |ss|
    ensures Insert(ss, ip, me).Some? ==> TablesOk(Insert(ss, ip, me).value)
  {
    hide Find, FreeFrom;
    forall i | 0 <= i < |ss| && ip != NULL_IP && !Exhausted(ss)
      ensures ss[i].table != FreeFrom(ss, 1)
    {
      assert InUse(ss, ss[i].table);
    }
  }

  lemma DeleteKeepsTables(ss: seq<Source>, ip: Ip)
    requires TablesOk(ss)
    ensures TablesOk(Delete(ss, ip)) && Find(Delete(ss, ip), ip) == |Delete(ss, ip)|
  {
    hide Find;
  }

  /** The sources that need a table from the allocator. */
  function NonNull(ss: seq<Source>): set<Ip> {
    set s | s in ss && s.ip != NULL_IP :: s.ip
  }

  function TableNumbers(ss: seq<Source>): set<nat> {
    set s | s in ss && s.ip != NULL_IP :: s.table
  }

  function UpTo(n: nat): (r: set<nat>)
    ensures forall t :: t in r <==> 1 <= t <= n
    ensures |r| == n
  {
    if n == 0 then {} else UpTo(n - 1) + {n}
  }

  lemma FirstSource(ss: seq<Source>)
    requires TablesOk(ss) && ss != []
    ensures TablesOk(ss[1..])
    ensures ss[0].ip == NULL_IP ==> TableNumbers(ss) == TableNumbers(ss[1..]) && NonNull(ss) == NonNull(ss[1..])
    ensures ss[0].ip != NULL_IP ==>
      && TableNumbers(ss) == TableNumbers(ss[1..]) + {ss[0].table} && ss[0].table !in TableNumbers(ss[1..])
      && NonNull(ss) == NonNull(ss[1..]) + {ss[0].ip} && ss[0].ip !in NonNull(ss[1..])
  {
    assert forall s :: s in ss <==> s == ss[0] || s in ss[1..];
  }

  lemma {:induction false} OneTableEach(ss: seq<Source>)
    requires TablesOk(ss)
    ensures |TableNumbers(ss)| == |NonNull(ss)|
  {
    hide TablesOk;
    if ss != [] {
      FirstSource(ss);
      OneTableEach(ss[1..]);
    }
  }

  lemma SubsetOfSameSize<T>(a: set<T>, b: set<T>)
    requires a <= b && |a| == |b|
    ensures a == b
  {
    if x :| x in b && x !in a {
      SubsetSize(a, b - {x});
    }
  }

  lemma {:induction false} SubsetSize<T>(a: set<T>, b: set<T>)
    requires a <= b
    ensures |a| <= |b|
    decreases a
  {
    if x :| x in a {
      SubsetSize(a - {x}, b - {x});
    }
  }

  /** The allocator runs out exactly when 252 sources have a table, and never earlier. */
  lemma ExhaustedExactly(ss: seq<Source>)
    requires TablesOk(ss)
    ensures Exhausted(ss) <==> |NonNull(ss)| == MAX_ROUTE_TABLES
    ensures |NonNull(ss)| <= MAX_ROUTE_TABLES
  {
    hide FreeFrom, UpTo;
    OneTableEach(ss);
    assert TableNumbers(ss) <= UpTo(MAX_ROUTE_TABLES);
    SubsetSize(TableNumbers(ss), UpTo(MAX_ROUTE_TABLES));
    if Exhausted(ss) {
      forall t | t in UpTo(MAX_ROUTE_TABLES)
        ensures t in TableNumbers(ss)
      {
        assert InUse(ss, t);
        var i :| 0 <= i < |ss| && ss[i].table == t;
        assert ss[i] in ss;
      }
      assert TableNumbers(ss) == UpTo(MAX_ROUTE_TABLES);
    }
    if |NonNull(ss)| == MAX_ROUTE_TABLES {
      SubsetOfSameSize(TableNumbers(ss), UpTo(MAX_ROUTE_TABLES));
      forall t | t in UpTo(MAX_ROUTE_TABLES)
        ensures InUse(ss, t)
      {
        assert t in TableNumbers(ss);
      }
    }
  }

  // ---- The list ----

  class Node {
    var source: Source
    var next: Node?

    constructor (source: Source)
      ensures this.source == source && next == null
    {
      this.source, next := source, null;
    }
  }

  class SourceList {
    var head: Node?

    /** The nodes from `head` along `next`, their sources, and the nodes the list owns. */
    ghost var Nodes: seq<Node>
    ghost var Contents: seq<Source>
    ghost var Repr: set<Node>

    ghost predicate Valid()
      reads this, Repr
    {
      && Distinct(Nodes)
      && |Contents| == |Nodes|
      && (forall i :: 0 <= i < |Nodes| ==> Nodes[i] in Repr && Nodes[i].source == Contents[i])
      && head == NodeAt(0)
      && (forall i {:trigger Nodes[i].next} :: 0 <= i < |Nodes| ==> Nodes[i].next == NodeAt(i + 1))
    }

    ghost function NodeAt(i: int): Node?
      reads this`Nodes
    {
      if 0 <= i < |Nodes| then Nodes[i] else null
    }

    /** A search that ended at position `k` has returned the node there, or null at the end. */
    ghost predicate Found(r: Node?, k: nat)
      reads this`Nodes, this`Contents, this`Repr, (if r == null then {} else {r})`source
    {
      && (r == null <==> k == |Contents|)
      && (r != null ==> k < |Nodes| == |Contents| && r == Nodes[k] && r in Repr && r.source == Contents[k])
    }

    constructor ()
      ensures Valid() && Contents == [] && Repr == {}
    {
      head := null;
      Nodes, Contents, Repr := [], [], {};
    }

    method FindSource(ip: Ip) returns (r: Node?, ghost k: nat)
      requires Valid()
      ensures k == Find(Contents, ip) && Found(r, Find(Contents, ip))
    {
      hide Find;
      var tmpEntry := head;
      k := 0;
      while tmpEntry != null
        invariant k <= |Nodes| && tmpEntry == NodeAt(k)
        invariant forall i :: 0 <= i < k ==> Contents[i].ip != ip
        decreases |Nodes| - k
      {
        if tmpEntry.source.ip == ip {
          return tmpEntry, k;
        }
        tmpEntry := tmpEntry.next;
        k := k + 1;
      }
      r := null;
    }

    /** `find_empty_rttable`. */
    method IsFree(table: nat) returns (free: bool)
      requires Valid()
      ensures free <==> !InUse(Contents, table)
    {
      var tmpEntry := head;
      ghost var k := 0;
      while tmpEntry != null
        invariant k <= |Nodes| && tmpEntry == NodeAt(k)
        invariant forall i :: 0 <= i < k ==> Contents[i].table != table
        decreases |Nodes| - k
      {
        if tmpEntry.source.table == table {
          return false;
        }
        tmpEntry := tmpEntry.next;
        k := k + 1;
      }
      return true;
    }

    /** `find_first_rttable`: the smallest free table, or one past the last. */
    method FindFirstTable() returns (table: nat)
      requires Valid()
      ensures table == FreeFrom(Contents, 1)
    {
      hide FreeFrom, InUse, SourceList.Valid;
      table := 1;
      while table <= MAX_ROUTE_TABLES
        invariant 1 <= table <= MAX_ROUTE_TABLES + 1
        invariant forall t :: 1 <= t < table ==> InUse(Contents, t)
      {
        var free := IsFree(table);
        if free {
          return;
        }
        table := table + 1;
      }
    }

    method InsertSource(ip: Ip, me: Ip) returns (r: Node?)
      requires Valid()
      modifies this
      ensures Valid() && (r == null <==> Insert(old(Contents), ip, me) == None)
      ensures r == null ==> Contents == old(Contents) && Repr == old(Repr)
      ensures r != null ==> fresh(r) && Repr == old(Repr) + {r} && Found(r, 0)
      ensures r != null ==> Contents == Insert(old(Contents), ip, me).value
    {
      hide FreeFrom;
      var source := Source(ip, if ip == me then 1 else 0, DEFAULT_ROUTE_TABLE);
      if ip != NULL_IP {
        var table := FindFirstTable();
        if table > MAX_ROUTE_TABLES {
          return null;
        }
        source := source.(table := table);
      }
      var n := new Node(source);
      n.next := head;
      head := n;
      Nodes, Contents, Repr := [n] + Nodes, [source] + Contents, Repr + {n};
      r := n;
    }

    method DeleteSource(ip: Ip)
      requires Valid()
      modifies this, Repr`next
      ensures Valid() && Repr <= old(Repr)
      ensures Contents == Delete(old(Contents), ip)
    {
      hide Find;
      var prevEntry: Node?, tmpEntry := null, head;
      ghost var k := 0;
      while tmpEntry != null
        invariant Valid() && Contents == old(Contents) && Repr == old(Repr)
        invariant k <= |Nodes| && tmpEntry == NodeAt(k) && prevEntry == NodeAt(k - 1)
        invariant forall i :: 0 <= i < k ==> Contents[i].ip != ip
        decreases |Nodes| - k
      {
        if tmpEntry.source.ip == ip {
          assert k == Find(Contents, ip);
          if prevEntry != null {
            prevEntry.next := tmpEntry.next;
          } else {
            head := tmpEntry.next;
          }
          Repr := Repr - {tmpEntry};
          Nodes, Contents := RemoveAt(Nodes, k), RemoveAt(Contents, k);
          return;
        }
        prevEntry := tmpEntry;
        tmpEntry := tmpEntry.next;
        k := k + 1;
      }
    }

    /** Changes the number of routes of one source. */
    method SetRoutes(n: Node, ghost k: nat, routes: int)
      requires Valid() && k < |Nodes| && n == Nodes[k]
      modifies this`Contents, n`source
      ensures Valid() && k < |old(Contents)| && Contents == old(Contents)[k := old(Contents)[k].(routes := routes)]
    {
      n.source := n.source.(routes := routes);
      Contents := Contents[k := n.source];
    }
  }
}
