/** Removal by time alone, as the code does it, makes no loops in a network whose messages do not outlive the delete
    period. */
module TimedRemovals {
  import opened Types
  import opened Network
  import LF = LoopFreedom

  /** A run of the network with the time of every state. Removals are not guarded. */
  ghost predicate TimedRun(nets: seq<Net>, steps: seq<Step>, clock: seq<nat>) {
    && |nets| == |steps| + 1 == |clock| && Init(nets[0])
    && forall i :: 0 <= i < |steps| ==> NextStep(nets[i], nets[i + 1], steps[i])
  }

  /** No message carries an id that had been issued a delete period ago: a flood, and a reply, is over by then. */
  ghost predicate Prompt(nets: seq<Net>, clock: seq<nat>)
    requires |nets| == |clock|
  {
    forall i, j, m :: 0 <= j <= i < |nets| && m in nets[i].flight && clock[j] + DELETE_PERIOD <= clock[i] ==>
      m.id > SeqNo(nets[j], RouteKey(m).dst)
  }

  /** Both states have the route, with the same id. */
  ghost predicate SameRoute(net: Net, net': Net, n: Ip, k: Key) {
    (n, k) in net.tables && (n, k) in net'.tables && net'.tables[(n, k)].id == net.tables[(n, k)].id
  }

  /** A route is removed no earlier than a delete period after a state in which the node had it with the same id. */
  ghost predicate Unhurried(nets: seq<Net>, steps: seq<Step>, clock: seq<nat>)
    requires TimedRun(nets, steps, clock)
  {
    forall i :: 0 <= i < |steps| && steps[i].StepRemove? ==>
      exists j :: 0 <= j <= i && clock[j] + DELETE_PERIOD <= clock[i]
               && SameRoute(nets[j], nets[i], steps[i].n, steps[i].key)
  }

  /** Then every removal is safe. */
  lemma RemovalIsSafe(nets: seq<Net>, steps: seq<Step>, clock: seq<nat>, i: nat)
    requires TimedRun(nets, steps, clock) && Prompt(nets, clock) && Unhurried(nets, steps, clock)
    requires i < |steps| && steps[i].StepRemove?
    requires forall j :: 0 <= j <= i ==> Inv(nets[j])
    ensures LF.SafeToRemove(nets[i], steps[i].n, steps[i].key)
  {
    hide LF.SafeToRemove;
    var n, k := steps[i].n, steps[i].key;
    var j :| 0 <= j <= i && clock[j] + DELETE_PERIOD <= clock[i] && SameRoute(nets[j], nets[i], n, k);
    assert EntryOk(nets[j], n, k);
    forall m | m in nets[i].flight && RouteKey(m) == k
      ensures m.id > nets[i].tables[(n, k)].id
    {
      assert m.id > SeqNo(nets[j], RouteKey(m).dst);
    }
    LF.OldestIsSafe(nets[i], n, k);
  }

  lemma {:induction false} TimedInv(nets: seq<Net>, steps: seq<Step>, clock: seq<nat>, i: nat)
    requires TimedRun(nets, steps, clock) && Prompt(nets, clock) && Unhurried(nets, steps, clock) && i < |nets|
    ensures forall j :: 0 <= j <= i ==> Inv(nets[j])
  {
    if i > 0 {
      hide Inv, Prompt, Unhurried, NextStep;
      TimedInv(nets, steps, clock, i - 1);
      if steps[i - 1].StepRemove? {
        RemovalIsSafe(nets, steps, clock, i - 1);
      }
      LF.StepInv(nets[i - 1], nets[i], steps[i - 1]);
    }
  }

  /** In every state of such a run no path visits a node twice. */
  lemma NoLoops(nets: seq<Net>, steps: seq<Step>, clock: seq<nat>, i: nat, k: Key, p: seq<Ip>)
    requires TimedRun(nets, steps, clock) && Prompt(nets, clock) && Unhurried(nets, steps, clock)
    requires i < |nets| && LF.Path(nets[i], k, p)
    ensures Distinct(p)
  {
    TimedInv(nets, steps, clock, i);
    hide Inv, Prompt, Unhurried;
    forall a, b | 0 <= a < b < |p|
      ensures p[a] != p[b]
    {
      LF.PathImproves(nets[i], k, p, a, b);
    }
  }
}
