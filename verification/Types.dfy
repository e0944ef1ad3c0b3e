/** Vocabulary shared by the modules: addresses, keys, task records and protocol constants. */
module Types {
  datatype Option<+T> = None | Some(value: T)

  /** An IPv4 address, kept as the number the kernel compares. */
  type Ip = nat

  /** A type-of-service octet. */
  type Tos = nat

  const NO_TOS: Tos := 0

  const U8 := 0x100
  const U16 := 0x1_0000
  const U32 := 0x1_0000_0000

  // Route discovery.
  const NET_DIAMETER := 10
  const RREQ_RETRIES := 2
  const RREP_TIMER := 100
  const NET_TRAVERSAL_TIME := 2 * 40 * NET_DIAMETER

  // Lifetimes, in milliseconds.
  const HELLO_INTERVAL := 1000
  const ALLOWED_HELLO_LOSS := 3
  const ACTIVE_ROUTE_TIMEOUT := 4800
  const DELETE_PERIOD := ALLOWED_HELLO_LOSS * HELLO_INTERVAL
  const NEIGHBOR_TIMEOUT := HELLO_INTERVAL * (1 + ALLOWED_HELLO_LOSS) + 100

  // Task codes.
  const TASK_HELLO := 102
  const TASK_NEIGHBOR := 103
  const TASK_CLEANUP := 104
  const TASK_ROUTE_CLEANUP := 105
  const TASK_ST := 106
  const TASK_GW_CLEANUP := 107
  const TASK_SEND_ETT := 109
  const TASK_RECV_S_ETT := 110
  const TASK_RECV_L_ETT := 111
  const TASK_ETT_CLEANUP := 112
  const TASK_NEIGHBOR_2H := 113
  const TASK_RECV_RREQ := 116
  const TASK_RESEND_RREQ := 119
  const TASK_DTN_HELLO := 121
  const TASK_RECV_RCVP := 122
  const TASK_RECV_RRDP := 123
  const TASK_ETT_INFO := 124
  const TASK_SEND_RREP := 125
  const TASK_RECV_RERR := 126
  const TASK_RECV_STRREQ := 128
  const TASK_RECV_HELLO := 129
  const TASK_RECV_RREP := 130
  const TASK_UPDATE_LOAD := 131
  const TASK_GEN_RREQ := 132

  /** A traffic flow: source, destination and type of service. It keys routes, timers and held packets. */
  datatype Key = Key(src: Ip, dst: Ip, tos: Tos)

  /** The payload of a task; the links that thread tasks into queues are fields of the class `Task`. */
  datatype TaskInfo = TaskInfo(kind: int, time: nat, src: Ip, dst: Ip, tos: Tos, ttl: nat, retries: nat)
  {
    function FlowKey(): Key { Key(src, dst, tos) }
  }

  /** One node of the timer list and of the two task queues. */
  class Task {
    var info: TaskInfo
    var next: Task?
    var prev: Task?
    var prevControl: Task?

    constructor (info: TaskInfo)
      ensures this.info == info
      ensures next == null && prev == null && prevControl == null
    {
      this.info := info;
      next, prev, prevControl := null, null, null;
    }
  }

  /** No element occurs twice. */
  ghost predicate Distinct<T>(s: seq<T>) {
    forall i, j :: 0 <= i < j < |s| ==> s[i] != s[j]
  }

  function RemoveAt<T>(s: seq<T>, i: nat): (r: seq<T>)
    requires i < |s|
    ensures |r| == |s| - 1
    ensures forall k :: 0 <= k < i ==> r[k] == s[k]
    ensures forall k :: i <= k < |r| ==> r[k] == s[k + 1]
  {
    s[..i] + s[i + 1..]
  }

  function InsertAt<T>(s: seq<T>, i: nat, x: T): (r: seq<T>)
    requires i <= |s|
    ensures |r| == |s| + 1
    ensures forall k :: 0 <= k < i ==> r[k] == s[k]
    ensures r[i] == x
    ensures forall k :: i < k < |r| ==> r[k] == s[k - 1]
  {
    s[..i] + [x] + s[i..]
  }

  lemma RemoveAtDistinct<T>(s: seq<T>, i: nat)
    requires Distinct(s) && i < |s|
    ensures Distinct(RemoveAt(s, i)) && s[i] !in RemoveAt(s, i)
  {
  }

  lemma RemoveAtMultiset<T>(s: seq<T>, i: nat)
    requires i < |s|
    ensures multiset(s) == multiset(RemoveAt(s, i)) + multiset{s[i]}
  {
    assert s == s[..i] + [s[i]] + s[i + 1..];
  }

  lemma InsertAtMultiset<T>(s: seq<T>, i: nat, x: T)
    requires i <= |s|
    ensures multiset(InsertAt(s, i, x)) == multiset(s) + multiset{x}
  {
    assert s == s[..i] + s[i..];
  }
}
