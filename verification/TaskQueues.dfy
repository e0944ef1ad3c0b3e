/** The task queue of the daemon (task_queue.c): one doubly linked list of all pending tasks with a second
    queue, of the control tasks only, threaded through the same nodes by `prevControl`. */
module TaskQueues {
  import opened Types

  /** Control tasks are served before the ETT probing tasks. */
  predicate IsControlTask(kind: int) {
    kind in {
      TASK_HELLO, TASK_NEIGHBOR, TASK_CLEANUP, TASK_ROUTE_CLEANUP, TASK_RECV_RREQ, TASK_RESEND_RREQ, TASK_RECV_RERR,
      TASK_RECV_HELLO, TASK_RECV_RREP, TASK_SEND_RREP, TASK_ST, TASK_GW_CLEANUP, TASK_RECV_STRREQ, TASK_ETT_CLEANUP,
      TASK_NEIGHBOR_2H, TASK_UPDATE_LOAD, TASK_RECV_RCVP, TASK_RECV_RRDP, TASK_DTN_HELLO, TASK_GEN_RREQ
    }
  }

  /** Of all kinds of tasks only those that measure links can wait. */
  lemma OnlyProbesWait(kind: int)
    ensures !IsControlTask(kind) <==>
      || kind in {TASK_SEND_ETT, TASK_RECV_S_ETT, TASK_RECV_L_ETT, TASK_ETT_INFO}
      || !(102 <= kind <= 107 || 109 <= kind <= 113 || kind == 116 || kind == 119 || 121 <= kind <= 126
           || 128 <= kind <= 132)
  {
  }

  /** Position of the first control task in service order, or the length when there is none. */
  function FirstControl(q: seq<TaskInfo>): (i: nat)
    ensures i <= |q|
    ensures forall j :: 0 <= j < i ==> !IsControlTask(q[j].kind)
    ensures i < |q| ==> IsControlTask(q[i].kind)
  {
    if q == [] then 0
    else if IsControlTask(q[0].kind) then 0
    else 1 + FirstControl(q[1..])
  }

  /** The abstract priority queue: control tasks first, then arrival order. */
  function Served(q: seq<TaskInfo>): (i: nat)
    requires q != []
    ensures i < |q|
  {
    if FirstControl(q) < |q| then FirstControl(q) else 0
  }

  /** The tasks of `q` of one priority, in the same order. */
  function OfPriority(q: seq<TaskInfo>, control: bool): seq<TaskInfo> {
    if q == [] then []
    else (if IsControlTask(q[0].kind) == control then [q[0]] else []) + OfPriority(q[1..], control)
  }

  /** The order in which repeated service empties the queue. */
  function Drain(q: seq<TaskInfo>): seq<TaskInfo>
    decreases |q|
  {
    if q == [] then [] else [q[Served(q)]] + Drain(RemoveAt(q, Served(q)))
  }

  /** Service is a stable partition: all control tasks in arrival order, then all others in arrival order. */
  lemma {:induction false} DrainIsStablePartition(q: seq<TaskInfo>)
    ensures Drain(q) == OfPriority(q, true) + OfPriority(q, false)
    decreases |q|
  {
    if q != [] {
      var i := Served(q);
      DrainIsStablePartition(RemoveAt(q, i));
      ServedSplits(q);
    }
  }

  lemma {:induction false} ServedSplits(q: seq<TaskInfo>)
    requires q != []
    ensures OfPriority(q, true) + OfPriority(q, false)
         == [q[Served(q)]] + (OfPriority(RemoveAt(q, Served(q)), true) + OfPriority(RemoveAt(q, Served(q)), false))
  {
    var i := FirstControl(q);
    if i < |q| {
      TakeFirstControl(q);
    } else {
      NoControl(q);
      NoControl(q[1..]);
      assert RemoveAt(q, 0) == q[1..];
    }
  }

  lemma {:induction false} TakeFirstControl(q: seq<TaskInfo>)
    requires FirstControl(q) < |q|
    ensures OfPriority(q, true) == [q[FirstControl(q)]] + OfPriority(RemoveAt(q, FirstControl(q)), true)
    ensures OfPriority(q, false) == OfPriority(RemoveAt(q, FirstControl(q)), false)
  {
    var i := FirstControl(q);
    if i == 0 {
      assert RemoveAt(q, 0) == q[1..];
    } else {
      TakeFirstControl(q[1..]);
      assert RemoveAt(q, i)[1..] == RemoveAt(q[1..], i - 1);
    }
  }

  lemma {:induction false} NoControl(q: seq<TaskInfo>)
    requires forall j :: 0 <= j < |q| ==> !IsControlTask(q[j].kind)
    ensures OfPriority(q, true) == [] && OfPriority(q, false) == q
  {
    if q != [] {
      NoControl(q[1..]);
    }
  }

  /** The members of `nodes` whose payload is a control task, in the same order. */
  ghost function ControlNodes(nodes: seq<Task>, q: seq<TaskInfo>): seq<Task>
    requires |nodes| == |q|
  {
    if nodes == [] then []
    else (if IsControlTask(q[0].kind) then [nodes[0]] else []) + ControlNodes(nodes[1..], q[1..])
  }

  lemma {:induction false} ControlNodesMembers(nodes: seq<Task>, q: seq<TaskInfo>)
    requires |nodes| == |q|
    ensures forall t :: t in ControlNodes(nodes, q) ==> t in nodes
    ensures ControlNodes(nodes, q) == [] <==> FirstControl(q) == |q|
    ensures FirstControl(q) < |q| ==> ControlNodes(nodes, q)[0] == nodes[FirstControl(q)]
  {
    if nodes != [] {
      ControlNodesMembers(nodes[1..], q[1..]);
    }
  }

  lemma {:induction false} ControlNodesDistinct(nodes: seq<Task>, q: seq<TaskInfo>)
    requires |nodes| == |q| && Distinct(nodes)
    ensures Distinct(ControlNodes(nodes, q))
  {
    if nodes != [] {
      ControlNodesDistinct(nodes[1..], q[1..]);
      ControlNodesMembers(nodes[1..], q[1..]);
      assert nodes[0] !in nodes[1..];
    }
  }

  lemma {:induction false} ControlNodesAppend(nodes: seq<Task>, q: seq<TaskInfo>, t: Task, x: TaskInfo)
    requires |nodes| == |q|
    ensures ControlNodes(nodes + [t], q + [x])
         == ControlNodes(nodes, q) + (if IsControlTask(x.kind) then [t] else [])
  {
    if nodes == [] {
      assert (nodes + [t])[1..] == [] && (q + [x])[1..] == [];
    } else {
      ControlNodesAppend(nodes[1..], q[1..], t, x);
      assert (nodes + [t])[1..] == nodes[1..] + [t];
      assert (q + [x])[1..] == q[1..] + [x];
    }
  }

  lemma ControlNodesPrepend(nodes: seq<Task>, q: seq<TaskInfo>, t: Task, x: TaskInfo)
    requires |nodes| == |q|
    ensures ControlNodes([t] + nodes, [x] + q)
         == (if IsControlTask(x.kind) then [t] else []) + ControlNodes(nodes, q)
  {
    assert ([t] + nodes)[1..] == nodes && ([x] + q)[1..] == q;
  }

  function DropFirst<T>(s: seq<T>): seq<T> {
    if s == [] then [] else s[1..]
  }

  /** Taking out the task to be served takes the head off the control subsequence, if it has one. */
  lemma {:induction false} ControlNodesServe(nodes: seq<Task>, q: seq<TaskInfo>)
    requires |nodes| == |q| && q != []
    ensures FirstControl(q) < |q| <==> ControlNodes(nodes, q) != []
    ensures ControlNodes(RemoveAt(nodes, Served(q)), RemoveAt(q, Served(q)))
         == DropFirst(ControlNodes(nodes, q))
  {
    var i := Served(q);
    ControlNodesMembers(nodes, q);
    if FirstControl(q) == |q| {
      ControlNodesMembers(nodes[1..], q[1..]);
      assert RemoveAt(nodes, 0) == nodes[1..] && RemoveAt(q, 0) == q[1..];
    } else if i == 0 {
      assert RemoveAt(nodes, 0) == nodes[1..] && RemoveAt(q, 0) == q[1..];
    } else {
      ControlNodesServe(nodes[1..], q[1..]);
      assert RemoveAt(nodes, i)[1..] == RemoveAt(nodes[1..], i - 1);
      assert RemoveAt(q, i)[1..] == RemoveAt(q[1..], i - 1);
    }
  }

  lemma {:induction false} ControlNodesLast(nodes: seq<Task>, q: seq<TaskInfo>)
    requires |nodes| == |q| && |ControlNodes(nodes, q)| > 1
    ensures FirstControl(q) < |q| - 1
  {
    ControlNodesMembers(nodes[1..], q[1..]);
    if !IsControlTask(q[0].kind) {
      ControlNodesLast(nodes[1..], q[1..]);
    }
  }

  class TaskQueue {
    var taskQ: Task?
    var taskEnd: Task?
    var subQ: Task?
    var subEnd: Task?

    /** All pending nodes in service order, that is from `taskEnd` along `prev`, and their payloads. */
    ghost var Nodes: seq<Task>
    ghost var Contents: seq<TaskInfo>

    /** The control tasks among `Nodes`, in the same order. */
    ghost var Controls: seq<Task>

    /** The nodes the queue owns. */
    ghost var Repr: set<Task>

    /** The links spell out `Nodes` and `Controls`. Nothing is said of the `next` field of `taskEnd`, of the
        `prevControl` field of `subQ`, or of that of any task that is not a control task. */
    ghost predicate Valid()
      reads this, Repr
    {
      && Payloads()
      && MainLinks()
      && ControlLinks()
    }

    ghost predicate Payloads()
      reads this`Nodes, this`Contents, this`Controls, this`Repr, Repr`info
    {
      && |Contents| == |Nodes|
      && (forall i :: 0 <= i < |Nodes| ==> Nodes[i] in Repr && Nodes[i].info == Contents[i])
      && Controls == ControlNodes(Nodes, Contents)
    }

    /** `next` and `prev` run through `Nodes`. */
    ghost predicate MainLinks()
      reads this`taskQ, this`taskEnd, this`Nodes, this`Repr, Repr`next, Repr`prev
    {
      && Distinct(Nodes)
      && (forall i :: 0 <= i < |Nodes| ==> Nodes[i] in Repr)
      && (Nodes == [] ==> taskQ == null && taskEnd == null)
      && (Nodes != [] ==> taskEnd == Nodes[0] && taskQ == Nodes[|Nodes| - 1])
      && (forall i {:trigger Nodes[i].prev} :: 0 <= i < |Nodes| - 1 ==> Nodes[i].prev == Nodes[i + 1])
      && (forall i {:trigger Nodes[i].next} :: 0 < i < |Nodes| ==> Nodes[i].next == Nodes[i - 1])
    }

    /** `prevControl` runs from `subEnd` to `subQ` through `Controls`. */
    ghost predicate ControlLinks()
      reads this`subQ, this`subEnd, this`Controls, this`Repr, Repr`prevControl
    {
      && Distinct(Controls)
      && (forall i :: 0 <= i < |Controls| ==> Controls[i] in Repr)
      && (Controls == [] ==> subQ == null && subEnd == null)
      && (Controls != [] ==> subEnd == Controls[0] && subQ == Controls[|Controls| - 1])
      && (forall i {:trigger Controls[i].prevControl} ::
            0 <= i < |Controls| - 1 ==> Controls[i].prevControl == Controls[i + 1])
    }

    constructor ()
      ensures Valid() && Nodes == [] && Contents == [] && Repr == {}
    {
      taskQ, taskEnd, subQ, subEnd := null, null, null, null;
      Nodes, Contents, Controls, Repr := [], [], [], {};
    }

    /** Ordinary insertion: the task is served after everything already queued at its priority. */
    method QueueAodvTask(t: Task)
      requires Valid() && t !in Repr
      modifies this, Repr`next, Repr`prev, Repr`prevControl, t`next, t`prev, t`prevControl
      ensures Valid() && Repr == old(Repr) + {t}
      ensures Nodes == old(Nodes) + [t] && Contents == old(Contents) + [old(t.info)]
    {
      hide ControlNodes, FirstControl, Distinct, TaskQueue.MainLinks, TaskQueue.ControlLinks;
      ControlNodesAppend(Nodes, Contents, t, t.info);
      Own(t);
      Contents := Contents + [t.info];
      LinkLast(t);
      if IsControlTask(t.info.kind) {
        ControlLast(t);
      }
    }

    /** Insertion at the front: the task is served before everything already queued at its priority. */
    method QueueControlTaskAtFront(t: Task)
      requires Valid() && t !in Repr
      modifies this, Repr`next, Repr`prev, Repr`prevControl, t`next, t`prev, t`prevControl
      ensures Valid() && Repr == old(Repr) + {t}
      ensures Nodes == [t] + old(Nodes) && Contents == [old(t.info)] + old(Contents)
    {
      hide ControlNodes, FirstControl, Distinct, TaskQueue.MainLinks, TaskQueue.ControlLinks;
      ControlNodesPrepend(Nodes, Contents, t, t.info);
      Own(t);
      Contents := [t.info] + Contents;
      LinkFirst(t);
      if IsControlTask(t.info.kind) {
        ControlFirst(t);
      }
    }

    /** The node `t` belongs to the queue now. */
    ghost method Own(t: Task)
      requires Valid() && t !in Repr
      modifies this`Repr
      ensures Valid() && Repr == old(Repr) + {t} && t !in Nodes && t !in Controls
    {
      hide ControlNodes, FirstControl, Distinct;
      ControlNodesMembers(Nodes, Contents);
      Repr := Repr + {t};
    }

    /** Takes out the task the abstract priority queue would serve and keeps the order of all others. */
    method GetTask() returns (r: Task?)
      requires Valid()
      modifies this, Repr`next, Repr`prev
      ensures Valid()
      ensures r == null <==> old(Nodes) == []
      ensures r == null ==> Nodes == [] && Contents == [] && Repr == old(Repr)
      ensures r != null ==> r == old(Nodes[Served(Contents)]) && r.info == old(Contents[Served(Contents)])
      ensures r != null ==> r in old(Repr) && Repr == old(Repr) - {r}
      ensures r != null ==> Nodes == RemoveAt(old(Nodes), Served(old(Contents)))
      ensures r != null ==> Contents == RemoveAt(old(Contents), Served(old(Contents)))
    {
      hide ControlNodes, FirstControl;
      ControlNodesMembers(Nodes, Contents);
      if subEnd != null {
        r := GetControlTask();
        return;
      }
      if taskEnd != null {
        ControlNodesServe(Nodes, Contents);
        r := taskEnd;
        if taskEnd == taskQ {
          taskQ := null;
          taskEnd := null;
          Nodes := [];
        } else {
          UnlinkEnd();
        }
        Contents, Repr := RemoveAt(Contents, 0), Repr - {r};
        return;
      }
      r := null;
    }

    /** The branches of `GetTask` that serve the control task at `subEnd`. */
    method GetControlTask() returns (r: Task)
      requires Valid() && Controls != []
      modifies this, Repr`next, Repr`prev
      ensures Valid()
      ensures FirstControl(old(Contents)) < |old(Contents)|
      ensures r == old(Nodes)[FirstControl(old(Contents))]
      ensures Nodes == RemoveAt(old(Nodes), FirstControl(old(Contents)))
      ensures Contents == RemoveAt(old(Contents), FirstControl(old(Contents)))
      ensures Repr == old(Repr) - {r}
    {
      hide ControlNodes, FirstControl, Distinct, TaskQueue.MainLinks, TaskQueue.ControlLinks;
      ControlHead();
      ControlNodesServe(Nodes, Contents);
      ghost var i := FirstControl(Contents);
      r := subEnd;
      if subEnd == subQ {
        UnlinkOnlyControl(i);
      } else {
        if taskEnd == subEnd {
          UnlinkEnd();
        } else {
          UnlinkMiddle(r, i);
        }
      }
      ControlServed();
      Disown(r, i);
    }

    /** Where the first control task is. */
    lemma ControlHead()
      requires Valid() && Controls != []
      ensures FirstControl(Contents) < |Contents| == |Nodes| && subEnd == Nodes[FirstControl(Contents)]
      ensures taskEnd == subEnd <==> FirstControl(Contents) == 0
      ensures subEnd != subQ ==> FirstControl(Contents) < |Nodes| - 1
    {
      ControlNodesMembers(Nodes, Contents);
      if |Controls| > 1 {
        ControlNodesLast(Nodes, Contents);
      }
    }

    /** Takes the first control task off the control queue. */
    method ControlServed()
      requires ControlLinks() && Controls != []
      modifies this`subQ, this`subEnd, this`Controls
      ensures ControlLinks() && Controls == old(Controls)[1..]
      ensures old(subEnd) !in Controls
    {
      if subEnd == subQ {
        subQ := null;
        subEnd := null;
      } else {
        subEnd := subEnd.prevControl;
      }
      Controls := Controls[1..];
    }

    /** The node `r` belongs to the caller now. */
    ghost method Disown(r: Task, i: nat)
      requires MainLinks() && ControlLinks() && r !in Nodes && r !in Controls
      requires i < |Contents| && |Nodes| == |Contents| - 1
      requires forall k :: 0 <= k < |Nodes| ==> Nodes[k].info == RemoveAt(Contents, i)[k]
      requires Controls == ControlNodes(Nodes, RemoveAt(Contents, i))
      modifies this`Contents, this`Repr
      ensures Valid() && Contents == RemoveAt(old(Contents), i) && Repr == old(Repr) - {r}
    {
      Contents, Repr := RemoveAt(Contents, i), Repr - {r};
    }

    /** The control task about to be served is the only one; it may be anywhere in the list of all tasks. */
    method UnlinkOnlyControl(ghost i: nat)
      requires MainLinks()
      requires i < |Nodes| && subEnd == subQ == Nodes[i]
      modifies this`taskQ, this`taskEnd, this`Nodes, Repr`prev, Repr`next
      ensures MainLinks() && Nodes == RemoveAt(old(Nodes), i)
      ensures subEnd !in Nodes
    {
      if taskEnd == taskQ && taskEnd == subEnd {
        taskQ := null;
        taskEnd := null;
        Nodes := [];
      } else if taskEnd == subEnd {
        UnlinkEnd();
      } else if taskQ == subQ {
        UnlinkStart();
      } else {
        UnlinkMiddle(subEnd, i);
      }
    }

    /** The part of the two insertions that links the list of all tasks. */
    method LinkLast(t: Task)
      requires MainLinks() && t in Repr && t !in Nodes
      modifies this`taskQ, this`taskEnd, this`Nodes, Repr`next, Repr`prev
      ensures MainLinks() && Nodes == old(Nodes) + [t]
    {
      t.next := taskQ;
      t.prev := null;
      if taskQ != null {
        taskQ.prev := t;
      }
      if taskEnd == null {
        taskEnd := t;
      }
      taskQ := t;
      Nodes := Nodes + [t];
    }

    method LinkFirst(t: Task)
      requires MainLinks() && t in Repr && t !in Nodes
      modifies this`taskQ, this`taskEnd, this`Nodes, Repr`next, Repr`prev
      ensures MainLinks() && Nodes == [t] + old(Nodes)
    {
      t.next := null;
      t.prev := taskEnd;
      if taskEnd != null {
        taskEnd.next := t;
      }
      if taskQ == null {
        taskQ := t;
      }
      taskEnd := t;
      Nodes := [t] + Nodes;
    }

    /** The part of the two insertions that links the list of control tasks. */
    method ControlLast(t: Task)
      requires ControlLinks() && t in Repr && t !in Controls
      modifies this`subQ, this`subEnd, this`Controls, Repr`prevControl
      ensures ControlLinks() && Controls == old(Controls) + [t]
    {
      if subQ == null && subEnd == null {
        subQ := t;
        subEnd := t;
      } else {
        subQ.prevControl := t;
        subQ := t;
      }
      Controls := Controls + [t];
    }

    method ControlFirst(t: Task)
      requires ControlLinks() && t in Repr && t !in Controls
      modifies this`subQ, this`subEnd, this`Controls, Repr`prevControl
      ensures ControlLinks() && Controls == [t] + old(Controls)
    {
      if subQ == null && subEnd == null {
        subQ := t;
        subEnd := t;
      } else {
        t.prevControl := subEnd;
        subEnd := t;
      }
      Controls := [t] + Controls;
    }

    /** The task about to be served is at `taskEnd`, with others behind it. */
    method UnlinkEnd()
      requires MainLinks() && |Nodes| > 1
      modifies this`taskEnd, this`Nodes
      ensures MainLinks() && Nodes == RemoveAt(old(Nodes), 0)
      ensures old(Nodes)[0] !in Nodes
    {
      RemoveAtDistinct(Nodes, 0);
      hide Distinct;
      taskEnd := taskEnd.prev;
      Nodes := RemoveAt(Nodes, 0);
    }

    /** The task about to be served is at `taskQ`, with others before it. */
    method UnlinkStart()
      requires MainLinks() && |Nodes| > 1
      modifies this`taskQ, this`Nodes, Repr`prev
      ensures MainLinks() && Nodes == RemoveAt(old(Nodes), |old(Nodes)| - 1)
      ensures old(Nodes)[|old(Nodes)| - 1] !in Nodes
    {
      taskQ := taskQ.next;
      taskQ.prev := null;
      Nodes := Nodes[..|Nodes| - 1];
    }

    /** The task about to be served has a neighbour on either side. */
    method UnlinkMiddle(r: Task, ghost i: nat)
      requires MainLinks()
      requires 0 < i < |Nodes| - 1 && r == Nodes[i]
      modifies this`Nodes, Repr`prev, Repr`next
      ensures MainLinks() && Nodes == RemoveAt(old(Nodes), i)
      ensures r !in Nodes
    {
      var prev, next := r.prev, r.next;
      prev.next := next;
      next.prev := prev;
      Nodes := RemoveAt(Nodes, i);
    }
  }
}
