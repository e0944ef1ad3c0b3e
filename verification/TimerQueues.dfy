/** The timer list (timer_queue.c): pending timers linked by `next`, kept in order of expiry, and the signal
    handler that moves the expired ones into the task queue. */
module TimerQueues {
  import opened Types
  import opened Clock
  import opened TaskQueues

  const U64 := 0x1_0000_0000_0000_0000

  /** C's `2 ^ x`, the bitwise exclusive or of a two's complement integer with 2. */
  function XorTwo(x: int): int {
    if (x / 2) % 2 == 0 then x + 2 else x - 2
  }

  /** The task that `insert_timer_directional` builds. */
  function DirectionalTimer(kind: int, delay: nat, retries: nat, key: Key, now: nat): TaskInfo {
    if delay != 0 then
      TaskInfo(kind, now + delay, key.src, key.dst, key.tos, 0, 0)
    else if kind == TASK_RESEND_RREQ then
      TaskInfo(kind, (now + XorTwo(RREQ_RETRIES - retries) * NET_TRAVERSAL_TIME) % U64,
               key.src, key.dst, key.tos, 30, retries)
    else
      TaskInfo(kind, now, key.src, key.dst, key.tos, 0, 0)
  }

  /** The task that `insert_timer_simple` builds. */
  function SimpleTimer(kind: int, delay: nat, ip: Ip, now: nat): TaskInfo {
    TaskInfo(kind, now + delay, ip, ip, NO_TOS, 0, 0)
  }

  /** What the waits really are: 1600 ms after the first request, 2400 ms after the second, none after the last.
      They do not double. */
  lemma ResendWaits(key: Key, now: nat)
    requires now + 2400 < U64
    ensures DirectionalTimer(TASK_RESEND_RREQ, 0, 2, key, now).time == now + 1600
    ensures DirectionalTimer(TASK_RESEND_RREQ, 0, 1, key, now).time == now + 2400
    ensures DirectionalTimer(TASK_RESEND_RREQ, 0, 0, key, now).time == now
    ensures forall retries: nat ::
      var x := DirectionalTimer(TASK_RESEND_RREQ, 0, retries, key, now);
      x.kind == TASK_RESEND_RREQ && x.FlowKey() == key && x.retries == retries && x.ttl == 30
  {
    assert XorTwo(0) == 2 && XorTwo(1) == 3 && XorTwo(2) == 0;
  }

  /** Where `queue_timer` puts a timer of time `t`: before the first one that is not earlier. */
  function InsertPos(q: seq<TaskInfo>, t: nat): (k: nat)
    ensures k <= |q|
    ensures forall j :: 0 <= j < k ==> TimeAfter(t, q[j].time)
    ensures k < |q| ==> !TimeAfter(t, q[k].time)
  {
    if q == [] || !TimeAfter(t, q[0].time) then 0 else 1 + InsertPos(q[1..], t)
  }

  function InsertTimer(q: seq<TaskInfo>, x: TaskInfo): seq<TaskInfo> {
    InsertAt(q, InsertPos(q, x.time), x)
  }

  /** How many timers at the head of the list have expired. */
  function Due(q: seq<TaskInfo>, now: nat): (k: nat)
    ensures k <= |q|
    ensures forall j :: 0 <= j < k ==> TimeBefore(q[j].time, now)
    ensures k < |q| ==> !TimeBefore(q[k].time, now)
  {
    if q == [] || !TimeBefore(q[0].time, now) then 0 else 1 + Due(q[1..], now)
  }

  predicate Matches(x: TaskInfo, key: Key, kind: int) {
    x.FlowKey() == key && x.kind == kind
  }

  /** Position of the first timer of a flow and kind, or the length when there is none. */
  function FirstMatch(q: seq<TaskInfo>, key: Key, kind: int): (k: nat)
    ensures k <= |q|
    ensures forall j :: 0 <= j < k ==> !Matches(q[j], key, kind)
    ensures k < |q| ==> Matches(q[k], key, kind)
  {
    if q == [] || Matches(q[0], key, kind) then 0 else 1 + FirstMatch(q[1..], key, kind)
  }

  function WithoutTimer(q: seq<TaskInfo>, key: Key, kind: int): seq<TaskInfo> {
    if FirstMatch(q, key, kind) < |q| then RemoveAt(q, FirstMatch(q, key, kind)) else q
  }

  ghost predicate SortedByTime(q: seq<TaskInfo>) {
    forall i, j :: 0 <= i < j < |q| ==> q[i].time <= q[j].time
  }

  /** All pending timers are close to each other and to `t`. */
  ghost predicate AllClose(q: seq<TaskInfo>, t: nat) {
    && (forall i :: 0 <= i < |q| ==> Close(q[i].time, t))
    && (forall i, j :: 0 <= i < |q| && 0 <= j < |q| ==> Close(q[i].time, q[j].time))
  }

  /** On close timers the truncated comparison is the order of the full clock. */
  lemma InsertPosIsOrder(q: seq<TaskInfo>, t: nat)
    requires AllClose(q, t)
    ensures forall j :: 0 <= j < InsertPos(q, t) ==> q[j].time < t
    ensures InsertPos(q, t) < |q| ==> t <= q[InsertPos(q, t)].time
  {
    hide TimeBefore;
    forall j | 0 <= j < |q|
      ensures TimeBefore(q[j].time, t) <==> q[j].time < t
    {
      TimeBeforeIsOrder(q[j].time, t);
    }
  }

  /** Insertion keeps the list sorted by the full clock, although it compares truncated times. */
  lemma InsertKeepsSorted(q: seq<TaskInfo>, x: TaskInfo)
    requires SortedByTime(q) && AllClose(q, x.time)
    ensures SortedByTime(InsertTimer(q, x))
    ensures multiset(InsertTimer(q, x)) == multiset(q) + multiset{x}
  {
    hide TimeBefore, InsertPos;
    var k := InsertPos(q, x.time);
    InsertPosIsOrder(q, x.time);
    assert q == q[..k] + q[k..];
  }

  /** On a sorted list the signal handler releases every expired timer and no other, earliest first. */
  lemma DueIsAllDue(q: seq<TaskInfo>, now: nat)
    requires SortedByTime(q) && AllClose(q, now)
    ensures forall j :: 0 <= j < |q| ==> (j < Due(q, now) <==> q[j].time < now)
    ensures SortedByTime(q[..Due(q, now)]) && SortedByTime(q[Due(q, now)..])
    ensures multiset(q[..Due(q, now)]) + multiset(q[Due(q, now)..]) == multiset(q)
  {
    hide TimeBefore, Due;
    var k := Due(q, now);
    forall j | 0 <= j < |q|
      ensures TimeBefore(q[j].time, now) <==> q[j].time < now
    {
      TimeBeforeIsOrder(q[j].time, now);
    }
    assert q == q[..k] + q[k..];
  }

  class TimerQueue {
    var head: Task?

    /** The timers from `head` along `next`, their payloads, and the nodes the list owns. */
    ghost var Nodes: seq<Task>
    ghost var Contents: seq<TaskInfo>
    ghost var Repr: set<Task>

    ghost predicate Valid()
      reads this, Repr
    {
      && Distinct(Nodes)
      && |Contents| == |Nodes|
      && (forall i :: 0 <= i < |Nodes| ==> Nodes[i] in Repr && Nodes[i].info == Contents[i])
      && head == NodeAt(0)
      && (forall i {:trigger Nodes[i].next} :: 0 <= i < |Nodes| ==> Nodes[i].next == NodeAt(i + 1))
    }

    ghost function NodeAt(i: nat): Task?
      reads this`Nodes
    {
      if i < |Nodes| then Nodes[i] else null
    }

    constructor ()
      ensures Valid() && Nodes == [] && Contents == [] && Repr == {}
    {
      head := null;
      Nodes, Contents, Repr := [], [], {};
    }

    /** Links a timer in before the first one that is not earlier. */
    method QueueTimer(t: Task)
      requires Valid() && t !in Repr
      modifies this, Repr`next, t`next
      ensures Valid() && Repr == old(Repr) + {t}
      ensures Contents == InsertTimer(old(Contents), t.info)
    {
      hide TimeBefore;
      var prevTimer: Task?, tmpTimer := null, head;
      ghost var k := 0;
      while tmpTimer != null && TimeAfter(t.info.time, tmpTimer.info.time)
        invariant k <= |Nodes| && tmpTimer == NodeAt(k)
        invariant prevTimer == if k == 0 then null else NodeAt(k - 1)
        invariant forall j :: 0 <= j < k ==> TimeAfter(t.info.time, Contents[j].time)
        decreases |Nodes| - k
      {
        prevTimer := tmpTimer;
        tmpTimer := tmpTimer.next;
        k := k + 1;
      }
      assert k == InsertPos(Contents, t.info.time);
      Link(t, prevTimer, tmpTimer, k);
    }

    /** Links `t` in between two neighbours, either of which may be missing. */
    method Link(t: Task, prevTimer: Task?, tmpTimer: Task?, ghost k: nat)
      requires Valid() && t !in Repr
      requires k <= |Nodes| && tmpTimer == NodeAt(k)
      requires prevTimer == if k == 0 then null else NodeAt(k - 1)
      modifies this, Repr`next, t`next
      ensures Valid() && Repr == old(Repr) + {t}
      ensures Contents == InsertAt(old(Contents), k, t.info)
    {
      if head == null || head == tmpTimer {
        t.next := head;
        head := t;
      } else if tmpTimer == null {
        t.next := null;
        prevTimer.next := t;
      } else {
        t.next := prevTimer.next;
        prevTimer.next := t;
      }
      Nodes, Contents, Repr := InsertAt(Nodes, k, t), InsertAt(Contents, k, t.info), Repr + {t};
    }

    /** Takes the head off if it has expired. */
    method FirstTimerDue(now: nat) returns (r: Task?)
      requires Valid()
      modifies this
      ensures Valid()
      ensures r != null <==> old(Contents) != [] && TimeBefore(old(Contents)[0].time, now)
      ensures r != null ==> r == old(Nodes)[0] && r in old(Repr) && r.info == old(Contents)[0]
      ensures r != null ==> Repr == old(Repr) - {r} && Contents == old(Contents)[1..]
      ensures r == null ==> Repr == old(Repr) && Contents == old(Contents)
    {
      if head != null {
        if TimeBefore(head.info.time, now) {
          r := head;
          head := head.next;
          Nodes, Contents, Repr := Nodes[1..], Contents[1..], Repr - {r};
          return;
        }
      }
      r := null;
    }

    /** Whether some timer of the flow and kind is pending. */
    method FindTimer(key: Key, kind: int) returns (found: bool)
      requires Valid()
      ensures found <==> exists j :: 0 <= j < |Contents| && Matches(Contents[j], key, kind)
    {
      var tmpTask := head;
      ghost var k := 0;
      while tmpTask != null
        invariant k <= |Nodes| && tmpTask == NodeAt(k)
        invariant forall j :: 0 <= j < k ==> !Matches(Contents[j], key, kind)
        decreases |Nodes| - k
      {
        if Matches(tmpTask.info, key, kind) {
          return true;
        }
        tmpTask := tmpTask.next;
        k := k + 1;
      }
      return false;
    }

    /** Removes the first timer of the flow and kind, if there is one. */
    method DeleteTimer(key: Key, kind: int)
      requires Valid()
      modifies this, Repr`next
      ensures Valid() && Repr <= old(Repr)
      ensures Contents == WithoutTimer(old(Contents), key, kind)
    {
      var prevTask: Task?, tmpTask := null, head;
      ghost var k := 0;
      while tmpTask != null
        invariant Valid() && Contents == old(Contents) && Repr == old(Repr)
        invariant k <= |Nodes| && tmpTask == NodeAt(k)
        invariant prevTask == if k == 0 then null else NodeAt(k - 1)
        invariant forall j :: 0 <= j < k ==> !Matches(Contents[j], key, kind)
        decreases |Nodes| - k
      {
        if Matches(tmpTask.info, key, kind) {
          assert k == FirstMatch(Contents, key, kind);
          Unlink(tmpTask, prevTask, k);
          return;
        }
        prevTask := tmpTask;
        tmpTask := tmpTask.next;
        k := k + 1;
      }
    }

    /** Takes a timer out from behind its predecessor, or off the head. */
    method Unlink(deadTask: Task, prevTask: Task?, ghost k: nat)
      requires Valid() && k < |Nodes| && deadTask == Nodes[k]
      requires prevTask == if k == 0 then null else NodeAt(k - 1)
      modifies this, Repr`next
      ensures Valid() && Repr == old(Repr) && k < |old(Contents)| && Contents == RemoveAt(old(Contents), k)
    {
      if prevTask == null {
        head := deadTask.next;
      } else {
        prevTask.next := deadTask.next;
      }
      Nodes, Contents := RemoveAt(Nodes, k), RemoveAt(Contents, k);
    }

    /** Moves the expired timers, in list order, to the tail of the task queue. */
    method Signal(tasks: TaskQueue, now: nat)
      requires Valid() && tasks.Valid() && Repr !! tasks.Repr
      modifies this, tasks, tasks.Repr`next, tasks.Repr`prev, tasks.Repr`prevControl
      modifies Repr`next, Repr`prev, Repr`prevControl
      ensures Valid() && tasks.Valid() && Repr !! tasks.Repr
      ensures Repr + tasks.Repr == old(Repr + tasks.Repr)
      ensures Contents == old(Contents)[Due(old(Contents), now)..]
      ensures tasks.Contents == old(tasks.Contents) + old(Contents)[..Due(old(Contents), now)]
    {
      hide Distinct, TimeBefore, TaskQueue.Valid, TimerQueue.Valid;
      ghost var k := 0;
      var tmpTask := FirstTimerDue(now);
      while tmpTask != null
        invariant Valid() && tasks.Valid() && Repr !! tasks.Repr
        invariant k <= |old(Contents)|
        invariant forall j :: 0 <= j < k ==> TimeBefore(old(Contents)[j].time, now)
        invariant tasks.Contents == old(tasks.Contents) + old(Contents)[..k]
        invariant tmpTask == null ==> Contents == old(Contents)[k..] && Repr + tasks.Repr == old(Repr + tasks.Repr)
        invariant tmpTask == null && k < |old(Contents)| ==> !TimeBefore(old(Contents)[k].time, now)
        invariant tmpTask != null ==> k < |old(Contents)| && Contents == old(Contents)[k + 1..]
        invariant tmpTask != null ==> tmpTask.info == old(Contents)[k] && TimeBefore(tmpTask.info.time, now)
        invariant tmpTask != null ==> tmpTask !in Repr && tmpTask !in tasks.Repr
        invariant tmpTask != null ==> Repr + tasks.Repr + {tmpTask} == old(Repr + tasks.Repr)
        decreases |Contents|, tmpTask != null
      {
        tasks.QueueAodvTask(tmpTask);
        k := k + 1;
        tmpTask := FirstTimerDue(now);
      }
    }
  }
}
