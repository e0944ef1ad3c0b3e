/** The link rate estimator (probe_ett.c): a vector of measured delays kept sorted in place, a search for the
    densest cluster of measurements, and a window that widens until a cluster is found. */
module EttEstimator {
  import opened Types
  import opened Arithmetic

  const ETT_PROBES_MAX := 10
  const ETT_PROBES_MIN := 3
  const ETT_RANGE := 50
  const DEFAULT_ETT_METRIC := 1000000
  const PROBE_PACKET_SIZE := 61740

  ghost predicate Sorted(v: seq<nat>) {
    forall i, j :: 0 <= i < j < |v| ==> v[i] <= v[j]
  }

  // ---- Searching the vector ----

  /** How many consecutive measurements from position `j` on lie within range above the one at `i`; the
      difference is that of 32-bit words. */
  function RunFrom(v: seq<nat>, i: nat, j: nat): (r: nat)
    requires i < |v| && j <= |v|
    ensures j + r <= |v|
    ensures forall k :: j <= k < j + r ==> (v[k] - v[i]) % U32 <= ETT_RANGE
    ensures j + r < |v| ==> (v[j + r] - v[i]) % U32 > ETT_RANGE
    decreases |v| - j
  {
    if j < |v| && (v[j] - v[i]) % U32 <= ETT_RANGE then 1 + RunFrom(v, i, j + 1) else 0
  }

  /** The measurements that follow the one at `i` in its cluster. */
  function Run(v: seq<nat>, i: nat): (r: nat)
    requires i < |v|
    ensures i + r < |v|
  {
    RunFrom(v, i, i + 1)
  }

  /** The first of the first `n` positions with the longest run; position 0 if no run is positive. */
  function Best(v: seq<nat>, n: nat): (p: nat)
    requires v != [] && n <= |v|
    ensures p < |v|
    ensures forall i :: 0 <= i < n ==> Run(v, i) <= Run(v, p)
  {
    if n == 0 then 0
    else
      var p := Best(v, n - 1);
      if n == 1 || Run(v, n - 1) > Run(v, p) then n - 1 else p
  }

  /** One position more in the search for the longest run. */
  lemma BestStep(v: seq<nat>, n: nat)
    requires n < |v|
    ensures Best(v, 0) == 0
    ensures Best(v, n + 1) == if n == 0 || Run(v, n) > Run(v, Best(v, n)) then n else Best(v, n)
  {
    hide Run;
  }

  /** Of several longest runs it is the first, that of the smallest delays. */
  lemma {:induction false} BestIsFirst(v: seq<nat>, n: nat)
    requires v != [] && n <= |v|
    ensures forall i :: 0 <= i < Best(v, n) ==> Run(v, i) < Run(v, Best(v, n))
  {
    hide Run;
    if n > 0 {
      BestIsFirst(v, n - 1);
      BestStep(v, n - 1);
    }
  }

  function Sum(v: seq<nat>): nat {
    if v == [] then 0 else Sum(v[..|v| - 1]) + v[|v| - 1]
  }

  /** The densest cluster of a vector. */
  function Cluster(v: seq<nat>): (c: seq<nat>)
    requires v != []
    ensures c != []
  {
    v[Best(v, |v|)..Best(v, |v|) + Run(v, Best(v, |v|)) + 1]
  }

  /** The average delay of the densest cluster, or zero when that has fewer than three members. */
  function Delay(v: seq<nat>): nat
    requires v != []
  {
    if |Cluster(v)| < 3 then 0 else Sum(Cluster(v)) / |Cluster(v)|
  }

  lemma DelayOfBest(v: seq<nat>)
    requires v != []
    ensures var p := Best(v, |v|);
      var n := Run(v, p) + 1;
      |Cluster(v)| == n && Delay(v) == if n < 3 then 0 else Sum(v[p..p + n]) / n
  {
  }

  /** How many of the first `n` measurements lie in the interval of width `ETT_RANGE` that starts at `lo`. */
  function Within(v: seq<nat>, lo: nat, n: nat): nat
    requires n <= |v|
  {
    if n == 0 then 0
    else Within(v, lo, n - 1) + (if lo <= v[n - 1] <= lo + ETT_RANGE then 1 else 0)
  }

  /** A vector of delays that the estimator can hold. */
  ghost predicate Delays(v: seq<nat>) {
    v != [] && Sorted(v) && forall i :: 0 <= i < |v| ==> v[i] <= DEFAULT_ETT_METRIC
  }

  lemma {:induction false} WithinBound(v: seq<nat>, lo: nat, n: nat, a: nat, b: nat)
    requires n <= |v| && a <= b
    requires forall k :: 0 <= k < |v| && lo <= v[k] <= lo + ETT_RANGE ==> a <= k < b
    ensures Within(v, lo, n) <= if n <= a then 0 else if n <= b then n - a else b - a
  {
    if n > 0 {
      WithinBound(v, lo, n - 1, a, b);
    }
  }

  /** On a sorted vector the run covers every later measurement within range. */
  lemma RunCovers(v: seq<nat>, i: nat, k: nat)
    requires Delays(v) && i < k < |v| && v[k] - v[i] <= ETT_RANGE
    ensures k <= i + Run(v, i)
  {
    var e := i + 1 + Run(v, i);
    assert e < |v| ==> v[i] <= v[e];
    assert e < |v| ==> (v[e] - v[i]) % U32 == v[e] - v[i];
    assert e < |v| ==> v[e] - v[i] > ETT_RANGE;
    assert forall j :: e <= j < |v| ==> v[j] - v[i] > ETT_RANGE;
  }

  /** No interval of width `ETT_RANGE` holds more measurements than the chosen cluster. */
  lemma ClusterIsDensest(v: seq<nat>, lo: nat)
    requires Delays(v)
    ensures Within(v, lo, |v|) <= |Cluster(v)|
  {
    hide Run, RunFrom;
    if k :| 0 <= k < |v| && lo <= v[k] {
      var i := FirstAtLeast(v, lo);
      forall k | 0 <= k < |v| && lo <= v[k] <= lo + ETT_RANGE
        ensures i <= k < i + Run(v, i) + 1
      {
        if k > i {
          RunCovers(v, i, k);
        }
      }
      WithinBound(v, lo, |v|, i, i + Run(v, i) + 1);
      assert Run(v, i) <= Run(v, Best(v, |v|));
    } else {
      WithinBound(v, lo, |v|, 0, 0);
    }
  }

  lemma FirstAtLeast(v: seq<nat>, lo: nat) returns (i: nat)
    requires exists k :: 0 <= k < |v| && lo <= v[k]
    ensures i < |v| && lo <= v[i] && forall k :: 0 <= k < i ==> v[k] < lo
  {
    i := 0;
    while v[i] < lo
      invariant i < |v| && forall k :: 0 <= k < i ==> v[k] < lo
      decreases |v| - i
    {
      i := i + 1;
    }
  }

  /** The members of the cluster lie within range of each other, lowest first. */
  lemma ClusterIsTight(v: seq<nat>)
    requires Delays(v)
    ensures Delays(Cluster(v))
    ensures Cluster(v)[|Cluster(v)| - 1] - Cluster(v)[0] <= ETT_RANGE
  {
    var p := Best(v, |v|);
    var e := p + Run(v, p);
    if Run(v, p) > 0 {
      assert (v[e] - v[p]) % U32 <= ETT_RANGE;
      assert v[p] <= v[e];
    }
  }

  /** Two measurements with a third between them lie within range of each other. */
  ghost predicate ThreeAgree(v: seq<nat>) {
    exists a, c :: 0 <= a < c - 1 && c < |v| && v[c] - v[a] <= ETT_RANGE
  }

  /** A cluster of at least three is found exactly when three measurements agree. */
  lemma ClusterOfThree(v: seq<nat>)
    requires Delays(v)
    ensures |Cluster(v)| >= 3 <==> ThreeAgree(v)
  {
    hide Best, Run, RunFrom;
    var p := Best(v, |v|);
    if |Cluster(v)| >= 3 {
      ClusterIsTight(v);
      var c := p + Run(v, p);
      assert p < c - 1 && c < |v| && v[c] - v[p] <= ETT_RANGE;
    }
    if a, c :| 0 <= a < c - 1 && c < |v| && v[c] - v[a] <= ETT_RANGE {
      RunCovers(v, a, c);
      assert Run(v, a) <= Run(v, p);
    }
  }

  lemma {:induction false} SumBounds(v: seq<nat>, lo: nat, hi: nat)
    requires forall i :: 0 <= i < |v| ==> lo <= v[i] <= hi
    ensures |v| * lo <= Sum(v) <= |v| * hi
  {
    if v != [] {
      SumBounds(v[..|v| - 1], lo, hi);
      assert |v| * lo == (|v| - 1) * lo + lo && |v| * hi == (|v| - 1) * hi + hi;
    }
  }

  /** The estimate lies inside the densest cluster, and it is zero exactly when no three measurements agree or
      when those that do add up to less than their number. */
  lemma DelayIsInCluster(v: seq<nat>)
    requires Delays(v)
    ensures |Cluster(v)| >= 3 ==> Cluster(v)[0] <= Delay(v) <= Cluster(v)[|Cluster(v)| - 1]
    ensures Delay(v) == 0 <==> !ThreeAgree(v) || Sum(Cluster(v)) < |Cluster(v)|
    ensures Delay(v) <= DEFAULT_ETT_METRIC
  {
    hide Cluster, Sum, ThreeAgree;
    var c := Cluster(v);
    ClusterIsTight(v);
    ClusterOfThree(v);
    SumBounds(c, c[0], c[|c| - 1]);
    DivBounds(Sum(c), |c|, c[0]);
    DivBounds(Sum(c), |c|, c[|c| - 1]);
    DivBounds(Sum(c), |c|, 1);
    DivBounds(Sum(c), |c|, 0);
    SmallQuotient(Sum(c), |c|);
  }

  /** The estimate is the average of the densest cluster, rounded down. */
  lemma DelayIsAverage(v: seq<nat>)
    requires Delays(v) && |Cluster(v)| >= 3
    ensures Delay(v) * |Cluster(v)| <= Sum(Cluster(v)) < (Delay(v) + 1) * |Cluster(v)|
  {
    hide Cluster, Sum;
    QuotientIs(Sum(Cluster(v)), |Cluster(v)|);
  }

  // ---- Rates ----

  /** The nominal rate for a probe of that many bytes per microsecond, in tenths. */
  function RateOf(bps: nat): nat {
    if bps < 38 then 60
    else if bps < 53 then 90
    else if bps < 78 then 120
    else if bps < 105 then 180
    else if bps < 150 then 240
    else if bps < 210 then 360
    else if bps < 255 then 480
    else 540
  }

  /** The nominal rate of an estimated delay; `None` is a division by zero. The divisor is cut to 16 bits. */
  function ComputeRate(estimation: nat): Option<nat> {
    if estimation % U16 == 0 then None else Some(RateOf(PROBE_PACKET_SIZE / (estimation % U16)))
  }

  /** The rate that is meant: that of the whole estimate. */
  function MeantRate(estimation: nat): nat
    requires estimation > 0
  {
    RateOf(PROBE_PACKET_SIZE / estimation)
  }

  /** The rate that is meant never rises with the delay. */
  lemma RateFallsWithDelay(e: nat, e': nat)
    requires 0 < e <= e'
    ensures MeantRate(e') <= MeantRate(e)
  {
    DivAntitone(PROBE_PACKET_SIZE, e, e');
  }

  /** The code computes it exactly below 65536 microseconds, and above when what is left of the estimate after the cut
      is slow as well. Otherwise a slow link is rated too high, or the division is by zero. */
  lemma RateExactly(e: nat)
    requires e > 0
    ensures ComputeRate(e) == Some(MeantRate(e)) <==> e < U16 || e % U16 >= 1625
    ensures e >= U16 && e % U16 < 1625 ==>
              ComputeRate(e) == None || (ComputeRate(e).Some? && ComputeRate(e).value > MeantRate(e))
  {
    if e < U16 {
      ModSmall(e, U16);
    } else {
      DivBounds(PROBE_PACKET_SIZE, e, 1);
      if e % U16 > 0 {
        DivBounds(PROBE_PACKET_SIZE, e % U16, 38);
        SlowRate(e % U16);
      }
    }
  }

  /** Which divisors give the lowest rate. */
  lemma SlowRate(d: nat)
    requires d > 0
    ensures RateOf(PROBE_PACKET_SIZE / d) == 60 <==> d >= 1625
    ensures RateOf(PROBE_PACKET_SIZE / d) >= 60
  {
    DivBounds(PROBE_PACKET_SIZE, d, 38);
  }

  /** Two estimates at the cut: the one divides by zero, the next is rated at the top. */
  lemma RateBreaksAt65536()
    ensures ComputeRate(65535) == Some(60)
    ensures ComputeRate(65536) == None
    ensures ComputeRate(65537) == Some(540)
  {
  }

  // ---- The estimator as a state machine ----

  datatype Estimator = Estimator(count: nat, window: nat, delays: seq<nat>, reset: bool, rate: nat)

  datatype Outcome = Waiting | Widened | Failed | Reset | Estimated | DivisionByZero

  /** A vector in which every delay has the default value. */
  function NoDelays(n: nat): (v: seq<nat>)
    ensures |v| == n && forall i :: 0 <= i < n ==> v[i] == DEFAULT_ETT_METRIC
  {
    if n == 0 then [] else NoDelays(n - 1) + [DEFAULT_ETT_METRIC]
  }

  /** The estimator after `reset_ett`. */
  function Fresh(): Estimator {
    Estimator(0, ETT_PROBES_MIN + 1, NoDelays(ETT_PROBES_MAX), false, 0)
  }

  /** The first `n` delays are sorted measurements, the others still have the default value. */
  ghost predicate Filled(v: seq<nat>, n: nat) {
    && |v| == ETT_PROBES_MAX && n <= |v|
    && Delays(v)
    && forall i :: n <= i < |v| ==> v[i] == DEFAULT_ETT_METRIC
  }

  ghost predicate Inv(e: Estimator) {
    e.count < e.window <= ETT_PROBES_MAX && ETT_PROBES_MIN <= e.window && Filled(e.delays, e.count)
  }

  function Min(a: nat, b: nat): nat {
    if a < b then a else b
  }

  /** The first position that holds more than `x`, or the length. */
  function UpperBound(s: seq<nat>, x: nat): (i: nat)
    ensures i <= |s|
    ensures forall k :: 0 <= k < i ==> s[k] <= x
    ensures i < |s| ==> x < s[i]
  {
    if s == [] || x < s[0] then 0 else 1 + UpperBound(s[1..], x)
  }

  /** Sorted insertion, after equal elements. */
  function SortedInsert(s: seq<nat>, x: nat): (r: seq<nat>)
    ensures |r| == |s| + 1
  {
    InsertAt(s, UpperBound(s, x), x)
  }

  lemma SortedInsertProps(s: seq<nat>, x: nat)
    requires Sorted(s)
    ensures Sorted(SortedInsert(s, x))
    ensures multiset(SortedInsert(s, x)) == multiset(s) + multiset{x}
  {
    InsertAtMultiset(s, UpperBound(s, x), x);
    SortedInsertSorted(s, UpperBound(s, x), x);
  }

  lemma SortedInsertSorted(s: seq<nat>, i: nat, x: nat)
    requires Sorted(s) && i <= |s|
    requires forall k :: 0 <= k < i ==> s[k] <= x
    requires i < |s| ==> x < s[i]
    ensures Sorted(InsertAt(s, i, x))
  {
    var r := InsertAt(s, i, x);
    forall a, b | 0 <= a < b < |r|
      ensures r[a] <= r[b]
    {
      assert i < b ==> s[i] <= s[b - 1];
    }
  }

  /** The vector after a measurement has been added to the first `n`. */
  function AddDelay(v: seq<nat>, n: nat, delay: nat): seq<nat>
    requires n < |v|
  {
    SortedInsert(v[..n], Min(delay, DEFAULT_ETT_METRIC)) + v[n + 1..]
  }

  /** What follows a measurement that has been added already. */
  function Estimate(e: Estimator): (r: (Estimator, Outcome))
    requires |e.delays| == ETT_PROBES_MAX >= e.window > 0
  {
    if e.count + 1 != e.window then (e.(count := e.count + 1), Waiting)
    else Conclude(e, Delay(e.delays[..e.window]), |Cluster(e.delays[..e.window])| >= 3)
  }

  /** The end of a window, given its estimate. */
  function Conclude(e: Estimator, d: nat, found: bool): (Estimator, Outcome)
    requires |e.delays| == ETT_PROBES_MAX
  {
    if d == 0 && e.window == ETT_PROBES_MAX then
      if e.reset then (Fresh(), Reset) else (NextRound(e, true), Failed)
    else if d == 0 then
      (Estimator(e.count + 1, Min(e.window + 2, ETT_PROBES_MAX),
                 if found then NoDelays(ETT_PROBES_MAX) else e.delays, e.reset, e.rate), Widened)
    else if d == DEFAULT_ETT_METRIC then
      (Fresh(), Reset)
    else if ComputeRate(d) == None then
      (NextRound(e, false), DivisionByZero)
    else
      (NextRound(e, false).(rate := ComputeRate(d).value), Estimated)
  }

  function NextRound(e: Estimator, reset: bool): Estimator {
    Estimator(0, ETT_PROBES_MIN, NoDelays(ETT_PROBES_MAX), reset, e.rate)
  }

  function Step(e: Estimator, delay: nat): (Estimator, Outcome)
    requires |e.delays| == ETT_PROBES_MAX >= e.window > e.count
  {
    Estimate(e.(delays := AddDelay(e.delays, e.count, delay)))
  }

  lemma AddDelayFills(v: seq<nat>, n: nat, delay: nat)
    requires Filled(v, n) && n < |v|
    ensures Filled(AddDelay(v, n, delay), n + 1)
    ensures AddDelay(v, n, delay)[..n + 1] == SortedInsert(v[..n], Min(delay, DEFAULT_ETT_METRIC))
  {
    var x := Min(delay, DEFAULT_ETT_METRIC);
    hide UpperBound;
    SortedInsertProps(v[..n], x);
    FilledBy(SortedInsert(v[..n], x), v, n);
  }

  lemma FilledBy(s: seq<nat>, v: seq<nat>, n: nat)
    requires |s| == n + 1 && Sorted(s) && forall i :: 0 <= i < |s| ==> s[i] <= DEFAULT_ETT_METRIC
    requires Filled(v, n) && n < |v|
    ensures Filled(s + v[n + 1..], n + 1)
    ensures (s + v[n + 1..])[..n + 1] == s
  {
  }

  /** The invariant of the estimator over a step, with any measured delay. */
  lemma {:induction false} StepKeepsInv(e: Estimator, delay: nat)
    requires Inv(e)
    ensures Inv(Step(e, delay).0)
    ensures RoundOver(Step(e, delay).1) ==> Step(e, delay).0.count == 0
    ensures !RoundOver(Step(e, delay).1) ==>
              Step(e, delay).0.count == e.count + 1 && Step(e, delay).0.reset == e.reset
  {
    hide Delay, Cluster, AddDelay, ComputeRate, NoDelays, Delays;
    AddDelayFills(e.delays, e.count, delay);
    FilledMore(NoDelays(ETT_PROBES_MAX));
  }

  lemma FilledMore(v: seq<nat>)
    requires |v| == ETT_PROBES_MAX && forall i :: 0 <= i < |v| ==> v[i] == DEFAULT_ETT_METRIC
    ensures forall n :: 0 <= n <= ETT_PROBES_MAX ==> Filled(v, n)
  {
  }

  predicate RoundOver(o: Outcome) {
    o != Waiting && o != Widened
  }

  /** The estimator after each measurement of a sequence. */
  function After(e: Estimator, delays: seq<nat>): (r: Estimator)
    requires Inv(e)
    ensures Inv(r)
    decreases |delays|
  {
    if delays == [] then e
    else
      StepKeepsInv(e, delays[0]);
      After(Step(e, delays[0]).0, delays[1..])
  }

  /** A round of measurements always ends: ten of them never pass without an estimate, a failure or a reset. */
  lemma {:induction false} RoundEnds(e: Estimator, delays: seq<nat>)
    requires Inv(e) && |delays| >= ETT_PROBES_MAX - e.count
    ensures exists k :: 0 < k <= ETT_PROBES_MAX - e.count && After(e, delays[..k]).count == 0
    decreases ETT_PROBES_MAX - e.count
  {
    hide Step;
    StepKeepsInv(e, delays[0]);
    var e' := Step(e, delays[0]).0;
    if e'.count == 0 {
      assert delays[..1][1..] == [];
      assert After(e, delays[..1]) == e';
    } else {
      RoundEnds(e', delays[1..]);
      var k :| 0 < k <= ETT_PROBES_MAX - e'.count && After(e', delays[1..][..k]).count == 0;
      assert delays[..k + 1][1..] == delays[1..][..k];
      assert After(e, delays[..k + 1]).count == 0;
    }
  }

  /** What a full window concludes, from its measurements alone. */
  lemma ConclusionExactly(e: Estimator)
    requires |e.delays| == ETT_PROBES_MAX && Delays(e.delays)
    requires 0 < e.window <= ETT_PROBES_MAX && e.count + 1 == e.window
    ensures var v := e.delays[..e.window];
            && (Estimate(e).1 == Estimated <==>
                  ThreeAgree(v) && Delay(v) != DEFAULT_ETT_METRIC && Delay(v) % U16 != 0)
            && (Estimate(e).1 == DivisionByZero <==> Delay(v) != 0 && Delay(v) % U16 == 0)
            && (Estimate(e).1 == Widened <==> Delay(v) == 0 && e.window < ETT_PROBES_MAX)
            && (Estimate(e).1 == Failed <==> Delay(v) == 0 && e.window == ETT_PROBES_MAX && !e.reset)
            && Estimate(e).1 != Waiting
  {
    hide Delay, Cluster, ThreeAgree;
    DelayIsInCluster(e.delays[..e.window]);
  }

  /** What becomes of the rate. An estimate is stored, a reset forgets it, and nothing else touches it. What is stored
      is the rate that is meant, unless the estimate is one of those that the code rates wrongly. */
  lemma OutcomeStored(e: Estimator)
    requires |e.delays| == ETT_PROBES_MAX && Delays(e.delays) && e.count < e.window <= ETT_PROBES_MAX
    ensures var d := Delay(e.delays[..e.window]);
      var (e', o) := Estimate(e);
      && (o == Waiting <==> e.count + 1 < e.window)
      && (o == Estimated ==> d > 0 && ComputeRate(d) == Some(e'.rate)
                             && (e'.rate == MeantRate(d) <==> d < U16 || d % U16 >= 1625))
      && (o == Reset ==> e'.rate == 0)
      && (o != Estimated && o != Reset ==> e'.rate == e.rate)
  {
    hide Delay, Cluster;
    var d := Delay(e.delays[..e.window]);
    if d > 0 {
      RateExactly(d);
    }
  }

  /** The measurements are forgotten when a round is over, and when three of them agree on nothing. */
  lemma MeasurementsGo(e: Estimator)
    requires |e.delays| == ETT_PROBES_MAX && Delays(e.delays)
    requires 0 < e.window <= ETT_PROBES_MAX && e.count < e.window
    ensures var (e', o) := Estimate(e);
      var agree := ThreeAgree(e.delays[..e.window]);
      && (RoundOver(o) || (o == Widened && agree) ==> e'.delays == NoDelays(10))
      && (o == Waiting || (o == Widened && !agree) ==> e'.delays == e.delays)
  {
    hide Delay, Cluster, ComputeRate, NoDelays, ThreeAgree, Delays;
    WindowDelays(e.delays, e.window);
    ClusterOfThree(e.delays[..e.window]);
  }

  lemma WindowDelays(v: seq<nat>, n: nat)
    requires Delays(v) && 0 < n <= |v|
    ensures Delays(v[..n])
  {
  }

  /** And of the window: it widens by two, up to ten, and starts over at three, or at four after a reset. */
  lemma WindowMoves(e: Estimator)
    requires |e.delays| == ETT_PROBES_MAX && 0 < e.window <= ETT_PROBES_MAX && e.count < e.window
    ensures var (e', o) := Estimate(e);
      && (o == Waiting ==> e'.window == e.window)
      && (o == Widened ==> e'.window == if e.window + 2 <= 10 then e.window + 2 else 10)
      && (o == Reset ==> e'.window == 4)
      && (RoundOver(o) && o != Reset ==> e'.window == 3)
      && (RoundOver(o) ==> e'.reset == (o == Failed) && e'.count == 0)
  {
    hide Delay, Cluster, ComputeRate, NoDelays;
  }

  // ---- Over sequences of measurements ----

  /** The measurements of the window when measurement `j` of a sequence has been added. */
  function WindowAt(e: Estimator, delays: seq<nat>, j: nat): (w: seq<nat>)
    requires Inv(e) && j < |delays|
    ensures w != []
  {
    var s := After(e, delays[..j]);
    AddDelay(s.delays, s.count, delays[j])[..s.window]
  }

  /** What measurement `j` of a sequence concludes. */
  function OutcomeAt(e: Estimator, delays: seq<nat>, j: nat): Outcome
    requires Inv(e) && j < |delays|
  {
    Step(After(e, delays[..j]), delays[j]).1
  }

  lemma {:induction false} AfterOne(e: Estimator, delays: seq<nat>, x: nat)
    requires Inv(e)
    ensures After(e, delays + [x]) == Step(After(e, delays), x).0
    decreases |delays|
  {
    hide Step, Delays;
    StepKeepsInv(e, (delays + [x])[0]);
    if delays == [] {
      assert [] + [x] == [x] && [x][1..] == [];
    } else {
      var e' := Step(e, delays[0]).0;
      assert (delays + [x])[0] == delays[0] && (delays + [x])[1..] == delays[1..] + [x];
      AfterOne(e', delays[1..], x);
    }
  }

  /** The state after measurement `j`, from the one before. */
  lemma StepAt(e: Estimator, delays: seq<nat>, j: nat)
    requires Inv(e) && j < |delays|
    ensures After(e, delays[..j + 1]) == Step(After(e, delays[..j]), delays[j]).0
  {
    hide Step, Inv;
    assert delays[..j + 1] == delays[..j] + [delays[j]];
    AfterOne(e, delays[..j], delays[j]);
  }

  /** What measurement `j` does to the rate and to the mark of a failed round. */
  lemma MarksAt(e: Estimator, delays: seq<nat>, j: nat)
    requires Inv(e) && j < |delays|
    ensures var s, s' := After(e, delays[..j]), After(e, delays[..j + 1]);
      var d, o := Delay(WindowAt(e, delays, j)), OutcomeAt(e, delays, j);
      && (o == Estimated ==> d > 0 && ComputeRate(d) == Some(s'.rate)
                             && (s'.rate == MeantRate(d) <==> d < U16 || d % U16 >= 1625))
      && (o == Reset ==> s'.rate == 0)
      && (o != Estimated && o != Reset ==> s'.rate == s.rate)
      && s'.reset == (if RoundOver(o) then o == Failed else s.reset)
      && (o == Reset <==>
            o != Waiting && (d == DEFAULT_ETT_METRIC || (d == 0 && s.window == ETT_PROBES_MAX && s.reset)))
  {
    StepAt(e, delays, j);
    var s := After(e, delays[..j]);
    AddDelayFills(s.delays, s.count, delays[j]);
    var added := s.(delays := AddDelay(s.delays, s.count, delays[j]));
    hide AddDelay, Delay, Inv, ComputeRate, MeantRate, Cluster;
    OutcomeStored(added);
    WindowMoves(added);
  }

  /** The rate is that of the last concluded round since the last reset: zero after a reset, the rate of the estimate
      after an estimate, and as at the start if there was neither. */
  lemma {:induction false} RateIsOfLast(e: Estimator, delays: seq<nat>) returns (j: int)
    requires Inv(e)
    ensures -1 <= j < |delays|
    ensures forall i :: j < i < |delays| ==> OutcomeAt(e, delays, i) != Estimated && OutcomeAt(e, delays, i) != Reset
    ensures var rate := After(e, delays).rate;
      && (j < 0 ==> rate == e.rate)
      && (j >= 0 ==>
            var d := Delay(WindowAt(e, delays, j));
            || (OutcomeAt(e, delays, j) == Reset && rate == 0)
            || (OutcomeAt(e, delays, j) == Estimated && d > 0 && ComputeRate(d) == Some(rate)
                && (rate == MeantRate(d) <==> d < U16 || d % U16 >= 1625)))
    decreases |delays|
  {
    hide Step, Inv, Delay, WindowAt;
    if delays == [] {
      j := -1;
    } else {
      var n := |delays| - 1;
      MarksAt(e, delays, n);
      assert delays[..n + 1] == delays;
      if OutcomeAt(e, delays, n) == Estimated || OutcomeAt(e, delays, n) == Reset {
        j := n;
      } else {
        j := RateIsOfLast(e, delays[..n]);
        SamePast(e, delays, n);
      }
    }
  }

  /** What a measurement concludes does not depend on those that follow. */
  lemma SamePast(e: Estimator, delays: seq<nat>, n: nat)
    requires Inv(e) && n <= |delays|
    ensures forall i :: 0 <= i < n ==>
      OutcomeAt(e, delays[..n], i) == OutcomeAt(e, delays, i) && WindowAt(e, delays[..n], i) == WindowAt(e, delays, i)
  {
    hide Step, Inv;
    forall i | 0 <= i < n
      ensures delays[..n][..i] == delays[..i]
    {
    }
  }

  /** The last round that was over has failed. */
  ghost predicate LastFailed(e: Estimator, delays: seq<nat>, j: nat)
    requires Inv(e) && j <= |delays|
  {
    exists i :: 0 <= i < j && OutcomeAt(e, delays, i) == Failed
                && forall k :: i < k < j ==> !RoundOver(OutcomeAt(e, delays, k))
  }

  lemma {:induction false} MarkIsOfLast(e: Estimator, delays: seq<nat>, j: nat)
    requires Inv(e) && !e.reset && j <= |delays|
    ensures After(e, delays[..j]).reset <==> LastFailed(e, delays, j)
  {
    hide Step, Inv, Delay, WindowAt, OutcomeAt;
    if j > 0 {
      MarkIsOfLast(e, delays, j - 1);
      MarksAt(e, delays, j - 1);
      var o := OutcomeAt(e, delays, j - 1);
      if !RoundOver(o) && LastFailed(e, delays, j) {
        var i :| 0 <= i < j && OutcomeAt(e, delays, i) == Failed
                 && forall k :: i < k < j ==> !RoundOver(OutcomeAt(e, delays, k));
        assert i < j - 1;
      }
    }
  }

  /** From the start on, a reset comes of two failed rounds in a row, or of measurements that are all missing; and these
      do lead to one. */
  lemma ResetExactly(delays: seq<nat>, j: nat)
    requires j < |delays| && Inv(Fresh())
    ensures var e := Fresh();
      var d, o := Delay(WindowAt(e, delays, j)), OutcomeAt(e, delays, j);
      o == Reset <==>
        o != Waiting && (d == DEFAULT_ETT_METRIC ||
                         (d == 0 && After(e, delays[..j]).window == ETT_PROBES_MAX && LastFailed(e, delays, j)))
  {
    hide Step, Inv, Delay, WindowAt, OutcomeAt, LastFailed;
    MarksAt(Fresh(), delays, j);
    MarkIsOfLast(Fresh(), delays, j);
  }

  /** The estimator starts in its invariant. */
  lemma FreshInv()
    ensures Inv(Fresh())
  {
    FilledMore(NoDelays(ETT_PROBES_MAX));
  }

  // ---- The estimator in place ----

  /** The part of a neighbour entry that the estimator uses. */
  class Neighbour {
    var countRcv: nat
    var ettWindow: nat
    var reset: bool
    var sendRate: nat
    const recvDelays: array<nat>

    ghost function State(): Estimator
      reads this, recvDelays
    {
      Estimator(countRcv, ettWindow, recvDelays[..], reset, sendRate)
    }

    ghost predicate Valid()
      reads this, recvDelays
    {
      Inv(State())
    }

    constructor ()
      ensures Valid() && fresh(recvDelays) && State() == Fresh()
    {
      recvDelays := new nat[ETT_PROBES_MAX];
      countRcv, ettWindow, reset, sendRate := 0, ETT_PROBES_MIN + 1, false, 0;
      new;
      DelayVectorInit();
      FilledMore(recvDelays[..]);
    }

    method DelayVectorInit()
      requires recvDelays.Length == ETT_PROBES_MAX
      modifies recvDelays
      ensures recvDelays[..] == NoDelays(ETT_PROBES_MAX)
    {
      for i := 0 to ETT_PROBES_MAX
        invariant forall k :: 0 <= k < i ==> recvDelays[k] == DEFAULT_ETT_METRIC
      {
        recvDelays[i] := DEFAULT_ETT_METRIC;
      }
    }

    /** Adds a measurement: afterwards the vector holds the sorted insertion of the delay, capped at the default. */
    method DelayVectorAdd(delay: nat)
      requires Filled(recvDelays[..], countRcv) && countRcv < ETT_PROBES_MAX
      modifies recvDelays
      ensures recvDelays[..] == AddDelay(old(recvDelays[..]), countRcv, delay)
    {
      hide UpperBound, Sorted;
      ghost var v := recvDelays[..];
      var count := countRcv;
      var i := 0;
      while i <= count
        invariant i <= count + 1
        invariant recvDelays[..] == v
        invariant forall k :: 0 <= k < i ==> v[k] <= delay
      {
        if delay < recvDelays[i] {
          assert i == UpperBound(v[..count], delay);
          ShiftIn(i, count, delay);
          return;
        }
        i := i + 1;
      }
      assert UpperBound(v[..count], DEFAULT_ETT_METRIC) == count;
      assert v == InsertAt(v[..count], count, DEFAULT_ETT_METRIC) + v[count + 1..];
    }

    /** Moves the measurements from position `i` up to `count` one place up and puts the delay at `i`. */
    method ShiftIn(i: nat, count: nat, delay: nat)
      requires i <= count < recvDelays.Length
      modifies recvDelays
      ensures recvDelays[..] == InsertAt(old(recvDelays[..count]), i, delay) + old(recvDelays[count + 1..])
    {
      ghost var v := recvDelays[..];
      var j := count;
      while j > i
        invariant i <= j <= count
        invariant forall k :: 0 <= k <= j ==> recvDelays[k] == v[k]
        invariant forall k :: j < k <= count ==> recvDelays[k] == v[k - 1]
        invariant forall k :: count < k < |v| ==> recvDelays[k] == v[k]
      {
        recvDelays[j] := recvDelays[j - 1];
        j := j - 1;
      }
      recvDelays[i] := delay;
    }

    /** Counts the measurements of the window that follow the one at `pos` within range of it. */
    method FindDelayRange(delay: nat, pos: nat, numProbes: nat) returns (count: nat)
      requires pos < numProbes <= recvDelays.Length && delay == recvDelays[pos]
      ensures count == Run(recvDelays[..numProbes], pos)
    {
      count := 0;
      ghost var v := recvDelays[..numProbes];
      var j := pos + 1;
      while j < numProbes
        invariant pos + 1 <= j <= numProbes && count == j - (pos + 1)
        invariant Run(v, pos) == count + RunFrom(v, pos, j)
      {
        var difference := (recvDelays[j] - delay) % U32;
        if difference <= ETT_RANGE {
          count := count + 1;
        } else {
          return;
        }
        j := j + 1;
      }
    }

    /** The average of the densest cluster in the window, zero if that has fewer than three members. A vector in
        which a cluster was found is reset. */
    method ComputeDelay() returns (d: nat)
      requires Delays(recvDelays[..]) && recvDelays.Length == ETT_PROBES_MAX && 0 < ettWindow <= ETT_PROBES_MAX
      modifies recvDelays
      ensures d == Delay(old(recvDelays[..ettWindow]))
      ensures recvDelays[..] == if |Cluster(old(recvDelays[..ettWindow]))| < 3 then old(recvDelays[..])
                                else NoDelays(ETT_PROBES_MAX)
    {
      hide Best, Run, Sum, Delays, Delay, Cluster;
      ghost var v := recvDelays[..ettWindow];
      var maxPos, maxCount := FindBest();
      DelayOfBest(v);
      assert maxPos + maxCount < |v|;
      assert v[maxPos..maxPos + maxCount + 1] == recvDelays[maxPos..maxPos + maxCount + 1];
      if maxCount < 2 {
        return 0;
      }
      d := SumRange(maxPos, maxCount);
      d := d / (maxCount + 1);
      DelayVectorInit();
    }

    /** Position and length of the first longest run in the window. */
    method FindBest() returns (maxPos: nat, maxCount: nat)
      requires 0 < ettWindow <= recvDelays.Length
      ensures maxPos == Best(recvDelays[..ettWindow], ettWindow)
      ensures maxCount == Run(recvDelays[..ettWindow], maxPos)
    {
      hide Run, Best;
      ghost var v := recvDelays[..ettWindow];
      maxCount, maxPos := 0, 0;
      BestStep(v, 0);
      for i := 0 to ettWindow
        invariant maxPos == Best(v, i)
        invariant maxCount == if i == 0 then 0 else Run(v, maxPos)
      {
        BestStep(v, i);
        var count := FindDelayRange(recvDelays[i], i, ettWindow);
        if count > maxCount {
          maxCount := count;
          maxPos := i;
        }
      }
    }

    /** Adds up the members of a cluster as 32-bit words; the sum never wraps. */
    method SumRange(pos: nat, count: nat) returns (sum: nat)
      requires Delays(recvDelays[..]) && recvDelays.Length == ETT_PROBES_MAX
      requires pos + count < recvDelays.Length
      ensures sum == Sum(recvDelays[pos..pos + count + 1]) <= ETT_PROBES_MAX * DEFAULT_ETT_METRIC
    {
      ghost var c := recvDelays[pos..pos + count + 1];
      sum := 0;
      var j := pos;
      while j <= pos + count
        invariant pos <= j <= pos + count + 1
        invariant sum == Sum(c[..j - pos]) <= (j - pos) * DEFAULT_ETT_METRIC
      {
        assert c[..j + 1 - pos][..j - pos] == c[..j - pos] && c[j - pos] == recvDelays[j] <= DEFAULT_ETT_METRIC;
        MulMono(j - pos, ETT_PROBES_MAX, DEFAULT_ETT_METRIC);
        ModSmall(recvDelays[j] + sum, U32);
        sum := (recvDelays[j] + sum) % U32;
        j := j + 1;
      }
      assert c[..j - pos] == c;
    }

    method ResetEtt()
      requires recvDelays.Length == ETT_PROBES_MAX
      modifies this, recvDelays
      ensures State() == Fresh()
    {
      countRcv, reset := 0, false;
      ettWindow := ETT_PROBES_MIN + 1;
      DelayVectorInit();
      sendRate := 0;
    }

    /** Counts a measurement that has been added and, at the end of the window, draws the conclusion. */
    method ComputeEstimation() returns (o: Outcome)
      requires Delays(recvDelays[..]) && recvDelays.Length == ETT_PROBES_MAX && 0 < ettWindow <= ETT_PROBES_MAX
      modifies this, recvDelays
      ensures (State(), o) == Estimate(old(State()))
    {
      hide Delay, Delays, Cluster, ComputeRate, NoDelays;
      countRcv := countRcv + 1;
      if countRcv != ettWindow {
        return Waiting;
      }
      var recvDelay := ComputeDelay();
      if recvDelay == 0 && ettWindow == ETT_PROBES_MAX {
        if reset {
          ResetEtt();
          return Reset;
        }
        DelayVectorInit();
        countRcv, ettWindow, reset := 0, ETT_PROBES_MIN, true;
        return Failed;
      }
      if recvDelay == 0 {
        ettWindow := ettWindow + 2;
        if ettWindow > ETT_PROBES_MAX {
          ettWindow := ETT_PROBES_MAX;
        }
        return Widened;
      }
      if recvDelay == DEFAULT_ETT_METRIC {
        ResetEtt();
        return Reset;
      }
      DelayVectorInit();
      countRcv, ettWindow, reset := 0, ETT_PROBES_MIN, false;
      var rate := ComputeRate(recvDelay);
      if rate == None {
        return DivisionByZero;
      }
      sendRate := rate.value;
      return Estimated;
    }

    /** A probe pair arrived with the delay that the neighbour measured for our last one. */
    method RecvMeasuredDelay(delay: nat) returns (o: Outcome)
      requires Valid()
      modifies this, recvDelays
      ensures Valid() && (State(), o) == Step(old(State()), delay)
    {
      hide Estimate, AddDelay;
      StepKeepsInv(State(), delay);
      AddDelayFills(recvDelays[..], countRcv, delay);
      DelayVectorAdd(delay);
      o := ComputeEstimation();
    }
  }
}
