/** Floods and replies die out: each causes only so many deliveries, whatever else goes on in the network. */
module FloodTermination {
  import opened Types
  import opened Arithmetic
  import opened Network
  import LF = LoopFreedom

  function Pow(b: nat, e: nat): (r: nat)
    ensures b > 0 ==> r > 0
  {
    if e == 0 then 1
    else if b == 0 then 0
    else
      Positive(b, Pow(b, e - 1));
      b * Pow(b, e - 1)
  }

  lemma Positive(a: nat, b: nat)
    ensures a > 0 && b > 0 ==> a * b > 0
  {
  }

  /** Which messages are counted: all of them, or those of one flood or reply, which share its key and its id. */
  datatype Scope = All | Just(key: Key, id: nat)
  {
    predicate Has(m: Msg) {
      this == All || (RouteKey(m) == key && m.id == id)
    }
  }

  /** How many deliveries a message can still cause, when no broadcast reaches more than `degree` nodes. */
  function Weight(m: Msg, degree: nat, scope: Scope): nat {
    if !scope.Has(m) then 0
    else if m.Rreq? then Pow(degree + 1, m.ttl)
    else m.left + 1
  }

  function Fuel(flight: seq<Msg>, degree: nat, scope: Scope): nat {
    if flight == [] then 0
    else Fuel(flight[..|flight| - 1], degree, scope) + Weight(flight[|flight| - 1], degree, scope)
  }

  lemma {:induction false} FuelOfSum(a: seq<Msg>, b: seq<Msg>, degree: nat, scope: Scope)
    ensures Fuel(a + b, degree, scope) == Fuel(a, degree, scope) + Fuel(b, degree, scope)
  {
    if b == [] {
      assert a + b == a;
    } else {
      assert (a + b)[..|a + b| - 1] == a + b[..|b| - 1];
      FuelOfSum(a, b[..|b| - 1], degree, scope);
    }
  }

  lemma FuelOfOne(m: Msg, degree: nat, scope: Scope)
    ensures Fuel([m], degree, scope) == Weight(m, degree, scope)
  {
    assert [m][..0] == [];
  }

  lemma FuelWithout(flight: seq<Msg>, i: nat, degree: nat, scope: Scope)
    requires i < |flight|
    ensures Fuel(RemoveAt(flight, i), degree, scope) + Weight(flight[i], degree, scope) == Fuel(flight, degree, scope)
  {
    hide Fuel, Weight;
    assert flight == flight[..i] + ([flight[i]] + flight[i + 1..]);
    FuelOfSum(flight[..i], [flight[i]] + flight[i + 1..], degree, scope);
    FuelOfSum([flight[i]], flight[i + 1..], degree, scope);
    FuelOfSum(flight[..i], flight[i + 1..], degree, scope);
    FuelOfOne(flight[i], degree, scope);
  }

  lemma Distribute(a: nat, b: nat)
    ensures (a + 1) * b == a * b + b
  {
  }

  lemma {:induction false} FuelOfCopies(copies: seq<Msg>, ttl: nat, degree: nat, scope: Scope)
    requires forall c :: c in copies ==> c.Rreq? && c.ttl == ttl && scope.Has(c)
    ensures Fuel(copies, degree, scope) == |copies| * Pow(degree + 1, ttl)
  {
    if copies != [] {
      FuelOfCopies(copies[..|copies| - 1], ttl, degree, scope);
      Distribute(|copies| - 1, Pow(degree + 1, ttl));
      assert copies[|copies| - 1] in copies;
    }
  }

  lemma {:induction false} FuelOfOthers(others: seq<Msg>, degree: nat, scope: Scope)
    requires forall c :: c in others ==> !scope.Has(c)
    ensures Fuel(others, degree, scope) == 0
  {
    if others != [] {
      FuelOfOthers(others[..|others| - 1], degree, scope);
      assert others[|others| - 1] in others;
    }
  }

  /** A delivery: a message received or lost. */
  predicate IsDelivery(step: Step) {
    step.StepRecvRreq? || step.StepRecvRrep? || step.StepLose? || step.StepOwn?
  }

  /** The step delivers a message that is counted. */
  predicate Delivers(net: Net, step: Step, scope: Scope) {
    IsDelivery(step) && step.i < |net.flight| && scope.Has(net.flight[step.i])
  }

  /** The broadcast that a reception may cause reaches at most `degree` nodes. */
  predicate Narrow(step: Step, degree: nat) {
    step.StepRecvRreq? ==> |step.audience| <= degree
  }

  /** Every delivery of a counted message uses up some of the fuel, and every other delivery leaves it alone. */
  lemma DeliveryBurns(net: Net, net': Net, step: Step, degree: nat, scope: Scope)
    requires Inv(net) && NextStep(net, net', step) && IsDelivery(step) && Narrow(step, degree)
    ensures if Delivers(net, step, scope) then Fuel(net'.flight, degree, scope) < Fuel(net.flight, degree, scope)
            else Fuel(net'.flight, degree, scope) == Fuel(net.flight, degree, scope)
  {
    FuelWithout(net.flight, step.i, degree, scope);
    match step
    case StepLose(_) => LF.InvMsg(net, step.i);
    case StepOwn(_, _) => LF.InvMsg(net, step.i);
    case StepRecvRreq(i, radio, audience) => RequestBurns(net, i, radio, audience, degree, scope);
    case StepRecvRrep(i, rk, sk) => ReplyBurns(net, net', i, rk, sk, degree, scope);
  }

  /** A reception emits at most one broadcast, with a smaller TTL. */
  lemma CopiesOf(net: Net, i: nat, radio: Radio, audience: seq<Ip>) returns (copies: seq<Msg>)
    requires i < |net.flight| && net.flight[i].Rreq? && radio.link.Valid()
    ensures RecvRreq(net, i, radio, audience).flight == Drop(net, i).flight + copies
    ensures |copies| <= |audience|
    ensures forall c :: c in copies ==>
      c.Rreq? && c.ttl + 1 == net.flight[i].ttl && c.flow == net.flight[i].flow && c.id == net.flight[i].id
  {
    hide PathMetric, Accepts;
    var rest := Drop(net, i).flight;
    var out := RecvRreq(net, i, radio, audience).flight;
    assert rest + [] == rest;
    copies := out[|rest|..];
    assert out == rest + copies;
  }

  lemma CopiesWeighLess(n: nat, degree: nat, ttl: nat)
    requires n <= degree
    ensures n * Pow(degree + 1, ttl) < Pow(degree + 1, ttl + 1)
  {
    var p := Pow(degree + 1, ttl);
    MulMono(n, degree, p);
    Distribute(degree, p);
  }

  lemma RequestBurns(net: Net, i: nat, radio: Radio, audience: seq<Ip>, degree: nat, scope: Scope)
    requires i < |net.flight| && net.flight[i].Rreq? && radio.link.Valid() && |audience| <= degree
    ensures var fuel' := Fuel(RecvRreq(net, i, radio, audience).flight, degree, scope);
      if scope.Has(net.flight[i]) then fuel' < Fuel(net.flight, degree, scope)
      else fuel' == Fuel(net.flight, degree, scope)
  {
    hide RecvRreq, Fuel, Pow;
    var m := net.flight[i];
    FuelWithout(net.flight, i, degree, scope);
    var copies := CopiesOf(net, i, radio, audience);
    FuelOfSum(Drop(net, i).flight, copies, degree, scope);
    if !scope.Has(m) {
      FuelOfOthers(copies, degree, scope);
    } else if copies == [] {
      assert Drop(net, i).flight + copies == Drop(net, i).flight;
    } else {
      assert copies[0].ttl + 1 == m.ttl;
      FuelOfCopies(copies, m.ttl - 1, degree, scope);
      CopiesWeighLess(|copies|, degree, m.ttl - 1);
    }
  }

  lemma ReplyBurns(net: Net, net': Net, i: nat, rk: Hit, sk: Hit, degree: nat, scope: Scope)
    requires Inv(net) && RecvRrep(net, net', i, rk, sk)
    ensures if scope.Has(net.flight[i]) then Fuel(net'.flight, degree, scope) < Fuel(net.flight, degree, scope)
            else Fuel(net'.flight, degree, scope) == Fuel(net.flight, degree, scope)
  {
    hide Inv, Sub32, Fuel;
    FuelWithout(net.flight, i, degree, scope);
    var m := net.flight[i];
    if m.flow.src != m.to && rk.Hit? {
      LF.FoundIsReverse(net, i, m.to, rk.key);
      LF.RelayGrows(net, i);
      var sent := LF.Relayed(m, net.tables[(m.to, rk.key)]);
      FuelOfSum(Drop(net, i).flight, [sent], degree, scope);
      FuelOfOne(sent, degree, scope);
    }
  }

  // ---- Runs ----

  /** How many deliveries of counted messages there were. */
  function Deliveries(nets: seq<Net>, steps: seq<Step>, scope: Scope): nat
    requires |nets| == |steps| + 1
  {
    if steps == [] then 0
    else
      var n := |steps| - 1;
      Deliveries(nets[..n + 1], steps[..n], scope) + (if Delivers(nets[n], steps[n], scope) then 1 else 0)
  }

  /** A step that adds nothing to what is counted. Where one flood or reply is counted, which has begun, any other
      step will do; where everything is counted, no flood and no reply may begin. */
  ghost predicate Quiet(net: Net, step: Step, scope: Scope) {
    match scope
    case All => !step.StepOriginate? && !step.StepReply? && !step.StepOwnReply?
    case Just(key, id) => id <= SeqNo(net, key.dst)
  }

  ghost predicate QuietRun(nets: seq<Net>, steps: seq<Step>, degree: nat, scope: Scope) {
    && |nets| == |steps| + 1
    && forall i :: 0 <= i < |steps| ==>
         && LF.GuardedStep(nets[i], nets[i + 1], steps[i])
         && Narrow(steps[i], degree) && Quiet(nets[i], steps[i], scope)
  }

  /** A reply with a new number is not one that is counted already. */
  lemma AnswerKeeps(net: Net, flow: Key, route: Entry, degree: nat, scope: Scope)
    requires scope.Just? && scope.id <= SeqNo(net, scope.key.dst)
    ensures Fuel(Answer(net, flow, route).flight, degree, scope) == Fuel(net.flight, degree, scope)
  {
    hide Fuel;
    var sent := Answer(net, flow, route).flight[|net.flight|..];
    assert Answer(net, flow, route).flight == net.flight + sent;
    FuelOfSum(net.flight, sent, degree, scope);
    FuelOfOthers(sent, degree, scope);
  }

  lemma OtherStepKeeps(net: Net, net': Net, step: Step, degree: nat, scope: Scope)
    requires Inv(net) && NextStep(net, net', step) && !IsDelivery(step) && Quiet(net, step, scope)
    ensures Fuel(net'.flight, degree, scope) == Fuel(net.flight, degree, scope)
  {
    hide Fuel, Inv;
    match step
    case StepOriginate(flow, audience) =>
      var copies := Broadcast(flow.src, audience, NET_DIAMETER, flow, SeqNo(net, flow.src) + 1, 0, 0);
      FuelOfSum(net.flight, copies, degree, scope);
      FuelOfOthers(copies, degree, scope);
    case StepReply(flow) =>
      AnswerKeeps(net, flow, net.tables[(flow.dst, Reverse(flow))], degree, scope);
    case StepOwnReply(flow, route) =>
      AnswerKeeps(net, flow, route, degree, scope);
    case StepSkip(_) =>
    case StepRemove(n, key) =>
  }

  /** Every flood and every reply, whatever else goes on meanwhile, is over after a number of deliveries that is known
      beforehand; and so is everything together, when nothing new begins. */
  lemma {:induction false} DiesOut(nets: seq<Net>, steps: seq<Step>, degree: nat, scope: Scope)
    requires QuietRun(nets, steps, degree, scope) && Inv(nets[0])
    ensures Inv(nets[|steps|])
    ensures Deliveries(nets, steps, scope) + Fuel(nets[|steps|].flight, degree, scope)
              <= Fuel(nets[0].flight, degree, scope)
  {
    hide Inv, NextStep, LF.SafeToRemove, Quiet, Delivers, Fuel;
    if steps != [] {
      var n := |steps| - 1;
      DiesOut(nets[..n + 1], steps[..n], degree, scope);
      LF.StepInv(nets[n], nets[n + 1], steps[n]);
      DeliveryOrNot(nets[n], nets[n + 1], steps[n], degree, scope);
    }
  }

  lemma DeliveryOrNot(net: Net, net': Net, step: Step, degree: nat, scope: Scope)
    requires Inv(net) && NextStep(net, net', step) && Narrow(step, degree) && Quiet(net, step, scope)
    ensures Fuel(net'.flight, degree, scope) + (if Delivers(net, step, scope) then 1 else 0)
              <= Fuel(net.flight, degree, scope)
  {
    hide Inv, NextStep, Fuel, Quiet;
    if IsDelivery(step) {
      DeliveryBurns(net, net', step, degree, scope);
    } else {
      OtherStepKeeps(net, net', step, degree, scope);
    }
  }

  /** A flood starts with that much fuel of its own, and adds that much to everything. */
  lemma FloodCosts(net: Net, flow: Key, audience: seq<Ip>, degree: nat)
    requires Inv(net) && |audience| <= degree
    ensures var id := SeqNo(net, flow.src) + 1;
      var net' := Originate(net, flow, audience);
      var cost := degree * Pow(degree + 1, NET_DIAMETER);
      && Fuel(net'.flight, degree, Just(Reverse(flow), id)) <= cost
      && Fuel(net'.flight, degree, All) <= Fuel(net.flight, degree, All) + cost
  {
    hide Pow, Fuel, Inv;
    var id := SeqNo(net, flow.src) + 1;
    var copies := Broadcast(flow.src, audience, NET_DIAMETER, flow, id, 0, 0);
    var scope := Just(Reverse(flow), id);
    NothingYet(net, Reverse(flow), id);
    FuelOfOthers(net.flight, degree, scope);
    FuelOfSum(net.flight, copies, degree, scope);
    FuelOfSum(net.flight, copies, degree, All);
    FuelOfCopies(copies, NET_DIAMETER, degree, scope);
    FuelOfCopies(copies, NET_DIAMETER, degree, All);
    MulMono(|copies|, degree, Pow(degree + 1, NET_DIAMETER));
  }

  lemma NothingYet(net: Net, key: Key, id: nat)
    requires Inv(net) && id > SeqNo(net, key.dst)
    ensures forall m :: m in net.flight ==> !Just(key, id).Has(m)
  {
    forall m | m in net.flight
      ensures !Just(key, id).Has(m)
    {
      assert MsgOk(net, m);
    }
  }
}
