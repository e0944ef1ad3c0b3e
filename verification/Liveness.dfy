/** Held packets do leave: four times around the timers and the task queue, with no reply and no new packet, and every
    packet of the node's own flows has been dropped, if it was not sent on before. */
module Liveness {
  import opened Types
  import opened TaskQueues
  import opened TimerQueues
  import opened PacketQueues
  import opened Discovery
  import R = Routing
  import C = Clock

  /** How many times a task or timer has to be served until its discovery is over. */
  function Steps(x: TaskInfo): nat {
    if x.kind == TASK_GEN_RREQ then 2 + RREQ_RETRIES
    else if x.kind == TASK_RESEND_RREQ then 1 + x.retries
    else 0
  }

  predicate Below(q: seq<TaskInfo>, h: nat) {
    forall i :: 0 <= i < |q| ==> Steps(q[i]) <= h
  }

  /** Every pending retry has at most as many retries left as a discovery starts with. */
  predicate Bounded(n: Node) {
    Below(n.tasks, 2 + RREQ_RETRIES) && Below(n.timers, 2 + RREQ_RETRIES)
  }

  // ---- Retries are bounded ----

  lemma FloodBelow(n: Node, key: Key, retries: nat, now: nat, h: nat)
    requires Below(n.timers, h) && 1 + retries <= h
    ensures Below(Flood(n, key, retries, now).timers, h) && Flood(n, key, retries, now).tasks == n.tasks
  {
    hide InsertPos;
    var x := DirectionalTimer(TASK_RESEND_RREQ, 0, retries, key, now);
    assert Steps(x) == 1 + retries;
  }

  /** Serving a task brings what is left of its discovery one step down. */
  lemma ServeBelow(n: Node, now: nat, h: nat)
    requires Below(n.tasks, h + 1) && Below(n.timers, h)
    ensures Below(Serve(n, now).tasks, h + 1) && Below(Serve(n, now).timers, h)
    ensures n.tasks != [] ==> |Serve(n, now).tasks| == |n.tasks| - 1
  {
    hide Served, Flood;
    if n.tasks != [] {
      var x := n.tasks[Served(n.tasks)];
      var rest := n.(tasks := RemoveAt(n.tasks, Served(n.tasks)));
      if x.kind == TASK_GEN_RREQ {
        FloodBelow(rest, x.FlowKey(), RREQ_RETRIES, now, h);
      } else if x.kind == TASK_RESEND_RREQ && x.retries > 0 {
        FloodBelow(rest, x.FlowKey(), x.retries - 1, now, h);
      }
    }
  }

  lemma BelowMore(q: seq<TaskInfo>, h: nat, h': nat)
    requires Below(q, h) && h <= h'
    ensures Below(q, h')
  {
  }

  /** Whatever happens, retries stay bounded. */
  lemma StepKeepsBounded(n: Node, s: Step, now: nat)
    requires Bounded(n) && Enabled(n, s)
    ensures Bounded(After(n, s, now))
  {
    hide Decide, Flood, Serve, RecvRrep, Answer, Picked, Judged, R.After, R.Confirm, InsertPos, Due;
    match s
    case StepServe =>
      var h := 2 + RREQ_RETRIES;
      ServeKeepsBounded(n, now);
    case StepGenRreq(key) => FloodBelow(n, key, RREQ_RETRIES, now, 2 + RREQ_RETRIES);
    case StepRrep(news, junk) =>
      RrepLeaves(n, news, now, junk);
      hide FirstMatch;
    case StepAnswer(news, junk) =>
      AnswerLeaves(n, news, now, junk);
      hide FirstMatch;
    case StepDelete(key, kind) =>
      hide FirstMatch;
    case _ =>
  }

  lemma ServeKeepsBounded(n: Node, now: nat)
    requires Bounded(n)
    ensures Bounded(Serve(n, now))
  {
    hide Below;
    BelowMore(n.tasks, 2 + RREQ_RETRIES, 3 + RREQ_RETRIES);
    hide Serve;
    ServeBelow(n, now, 2 + RREQ_RETRIES);
    ServeShrinks(n, now);
  }

  lemma ServeShrinks(n: Node, now: nat)
    requires Bounded(n)
    ensures Below(Serve(n, now).tasks, 2 + RREQ_RETRIES)
  {
    hide Served, InsertTimer, Picked, Judged;
    assert n.tasks != [] ==> Below(RemoveAt(n.tasks, Served(n.tasks)), 2 + RREQ_RETRIES);
  }

  lemma {:induction false} RunBounded(ns: seq<Node>, ss: seq<Step>, clock: seq<nat>)
    requires Run(ns, ss, clock) && Start(ns[0])
    ensures Bounded(ns[|ss|])
  {
    hide Enabled, After;
    if ss != [] {
      var i := |ss| - 1;
      RunBounded(ns[..|ss|], ss[..i], clock[..i]);
      hide Bounded;
      StepKeepsBounded(ns[i], ss[i], clock[i]);
    }
  }

  // ---- Rounds ----

  /** The daemon serves tasks until there are none. */
  function ServeAll(n: Node, now: nat): Node
    decreases |n.tasks|
  {
    if n.tasks == [] then n
    else
      ServeTakesOne(n, now);
      ServeAll(Serve(n, now), now)
  }

  lemma ServeTakesOne(n: Node, now: nat)
    requires n.tasks != []
    ensures |Serve(n, now).tasks| == |n.tasks| - 1
  {
    hide Served, Picked, Judged, InsertTimer;
  }

  /** The timers that are due become tasks, and all tasks are served. */
  function Round(n: Node, now: nat): Node {
    ServeAll(Signal(n, now), now)
  }

  /** All timers are due. */
  predicate AllDue(n: Node, now: nat) {
    Due(n.timers, now) == |n.timers|
  }

  lemma {:induction false} ServeAllBelow(n: Node, now: nat, h: nat)
    requires Below(n.tasks, h + 1) && Below(n.timers, h)
    ensures var n' := ServeAll(n, now); n'.tasks == [] && Below(n'.timers, h)
    decreases |n.tasks|
  {
    hide Serve, Below;
    if n.tasks != [] {
      ServeBelow(n, now, h);
      ServeAllBelow(Serve(n, now), now, h);
    }
  }

  lemma RoundBelow(n: Node, now: nat, h: nat)
    requires AllDue(n, now) && Below(n.tasks, h + 1) && Below(n.timers, h + 1)
    ensures var n' := Round(n, now); n'.tasks == [] && Below(n'.timers, h)
  {
    hide Due, ServeAll;
    ServeAllBelow(Signal(n, now), now, h);
  }

  lemma {:induction false} ServeAllKeeps(n: Node, now: nat)
    requires SelfListed(n) && NoneStranded(n)
    ensures var n' := ServeAll(n, now); SelfListed(n') && NoneStranded(n') && n'.me == n.me && n'.internal == n.internal
    decreases |n.tasks|
  {
    hide Serve, SelfListed, NoneStranded;
    if n.tasks != [] {
      ServeTakesOne(n, now);
      StepKeepsMe(n, StepServe, now);
      StepKeepsPackets(n, StepServe, now);
      ServeAllKeeps(Serve(n, now), now);
    }
  }

  lemma RoundKeeps(n: Node, now: nat)
    requires SelfListed(n) && NoneStranded(n)
    ensures var n' := Round(n, now); SelfListed(n') && NoneStranded(n') && n'.me == n.me && n'.internal == n.internal
  {
    hide Signal, SelfListed, NoneStranded, ServeAll;
    StepKeepsMe(n, StepSignal, now);
    StepKeepsPackets(n, StepSignal, now);
    ServeAllKeeps(Signal(n, now), now);
  }

  /** One round after the other. */
  function Rounds(n: Node, times: seq<nat>): Node
    decreases |times|
  {
    if times == [] then n else Rounds(Round(n, times[0]), times[1..])
  }

  /** Each round comes when the timers have expired that the one before has set. */
  predicate Patient(n: Node, times: seq<nat>)
    decreases |times|
  {
    times != [] ==> AllDue(n, times[0]) && Patient(Round(n, times[0]), times[1..])
  }

  lemma {:induction false} RoundsRelease(n: Node, times: seq<nat>)
    requires SelfListed(n) && NoneStranded(n) && Patient(n, times)
    requires Below(n.tasks, |times|) && Below(n.timers, |times|)
    ensures forall p :: p in Rounds(n, times).held ==> !Ours(n, p.flow)
    decreases |times|
  {
    hide Round, SelfListed, Ahead, AllDue;
    if times == [] {
      forall p | p in n.held
        ensures !Ours(n, p.flow)
      {
        NothingAhead(n, p.flow);
      }
    } else {
      hide NoneStranded;
      RoundKeeps(n, times[0]);
      RoundBelow(n, times[0], |times| - 1);
      RoundsRelease(Round(n, times[0]), times[1..]);
    }
  }

  lemma NothingAhead(n: Node, key: Key)
    requires Below(n.tasks, 0) && Below(n.timers, 0)
    ensures Ahead(n, key, true) == 0
  {
    hide Total;
    TotalPositive(n.tasks, key);
    TotalPositive(n.timers, key);
  }

  /** From any state that a node reaches with harmless replies, four rounds empty the packet queue of its own flows. */
  lemma HeldPacketsLeave(ns: seq<Node>, ss: seq<Step>, clock: seq<nat>, times: seq<nat>)
    requires Run(ns, ss, clock) && Start(ns[0])
    requires forall i :: 0 <= i < |ss| ==> Harmless(ns[i], ss[i])
    requires |times| == 2 + RREQ_RETRIES && Patient(ns[|ss|], times)
    ensures forall p :: p in Rounds(ns[|ss|], times).held ==> !Ours(ns[|ss|], p.flow)
  {
    hide Enabled, After, Harmless, Start, SelfListed, NoneStranded, Rounds, Patient;
    NoneForgotten(ns, ss, clock);
    RunBounded(ns, ss, clock);
    RoundsRelease(ns[|ss|], times);
  }

  // ---- Such rounds exist ----

  /** All times lie within the longest wait of a retry. */
  ghost predicate Soon(q: seq<TaskInfo>, now: nat) {
    forall i :: 0 <= i < |q| ==> now <= q[i].time <= now + 2400
  }

  lemma FloodSoon(n: Node, key: Key, retries: nat, now: nat)
    requires Soon(n.timers, now) && retries <= RREQ_RETRIES && now + 2400 < U64
    ensures Soon(Flood(n, key, retries, now).timers, now)
  {
    hide InsertPos;
    ResendWaits(key, now);
  }

  /** Serving a task sets no timer but such. */
  lemma ServeSoon(n: Node, now: nat)
    requires Bounded(n) && Soon(n.timers, now) && now + 2400 < U64
    ensures Soon(Serve(n, now).timers, now)
  {
    hide Served, Flood;
    if n.tasks != [] {
      var x := n.tasks[Served(n.tasks)];
      var rest := n.(tasks := RemoveAt(n.tasks, Served(n.tasks)));
      assert Steps(x) <= 2 + RREQ_RETRIES;
      if x.kind == TASK_GEN_RREQ {
        FloodSoon(rest, x.FlowKey(), RREQ_RETRIES, now);
      } else if x.kind == TASK_RESEND_RREQ && x.retries > 0 {
        FloodSoon(rest, x.FlowKey(), x.retries - 1, now);
      }
    }
  }

  lemma {:induction false} ServeAllSoon(n: Node, now: nat)
    requires Bounded(n) && Soon(n.timers, now) && now + 2400 < U64
    ensures Bounded(ServeAll(n, now)) && Soon(ServeAll(n, now).timers, now)
    decreases |n.tasks|
  {
    hide Serve, Bounded, Soon;
    if n.tasks != [] {
      ServeTakesOne(n, now);
      ServeSoon(n, now);
      ServeKeepsBounded(n, now);
      ServeAllSoon(Serve(n, now), now);
    }
  }

  lemma RoundSoon(n: Node, now: nat)
    requires Bounded(n) && AllDue(n, now) && now + 2400 < U64
    ensures Bounded(Round(n, now)) && Soon(Round(n, now).timers, now)
  {
    StepKeepsBounded(n, StepSignal, now);
    hide Due, ServeAll, Bounded;
    ServeAllSoon(Signal(n, now), now);
  }

  /** Timers that expired in the last 2^31 ms are due. */
  lemma AllDueIn(n: Node, now: nat)
    requires forall i :: 0 <= i < |n.timers| ==> n.timers[i].time < now < n.timers[i].time + C.HALF
    ensures AllDue(n, now)
  {
    hide Due, C.TimeBefore;
    var k := Due(n.timers, now);
    if k < |n.timers| {
      C.TimeBeforeIsOrder(n.timers[k].time, now);
    }
  }

  /** One round every 2401 ms. */
  function Times(now: nat, rounds: nat): seq<nat>
    decreases rounds
  {
    if rounds == 0 then [] else [now] + Times(now + 2401, rounds - 1)
  }

  lemma {:induction false} TimesArePatient(n: Node, now: nat, rounds: nat)
    requires Bounded(n) && AllDue(n, now) && now + 2401 * rounds < U64
    ensures |Times(now, rounds)| == rounds && Patient(n, Times(now, rounds))
    decreases rounds
  {
    hide AllDue, Round, Bounded;
    if rounds > 0 {
      RoundSoon(n, now);
      AllDueIn(Round(n, now), now + 2401);
      TimesArePatient(Round(n, now), now + 2401, rounds - 1);
    }
  }

  /** So whenever the pending timers of a reached state lie within 2^31 ms of each other, four rounds that begin when
      all of them have expired empty the packet queue of the node's own flows. */
  lemma HeldPacketsCanLeave(ns: seq<Node>, ss: seq<Step>, clock: seq<nat>, now: nat)
    requires Run(ns, ss, clock) && Start(ns[0])
    requires forall i :: 0 <= i < |ss| ==> Harmless(ns[i], ss[i])
    requires forall x :: x in ns[|ss|].timers ==> x.time < now < x.time + C.HALF
    requires now + 2401 * (2 + RREQ_RETRIES) < U64
    ensures forall p :: p in Rounds(ns[|ss|], Times(now, 2 + RREQ_RETRIES)).held ==> !Ours(ns[|ss|], p.flow)
  {
    hide Enabled, After, Harmless, Start, SelfListed, NoneStranded, Rounds, Patient, Bounded, Times, AllDue;
    RunBounded(ns, ss, clock);
    AllDueIn(ns[|ss|], now);
    TimesArePatient(ns[|ss|], now, 2 + RREQ_RETRIES);
    HeldPacketsLeave(ns, ss, clock, Times(now, 2 + RREQ_RETRIES));
  }
}
