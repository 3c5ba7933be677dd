/** System pressure: the weighted score, the discrete state, the policy and the worker
    allocation it drives, and their monotonicity from one end to the other. */
module Pressure {
  import opened Contracts
  import opened Rounding

  datatype State = Normal | High | Extreme

  datatype Action = Stream | Batch | Defer | Sample | Shed

  /** The figures of a system snapshot that the score reads, with the ingress rate. */
  datatype Load = Load(critical: int, normal: int, bestEffort: int, utilization: real, ingress: real,
                       processing: real, latencyMs: real)

  const HIGH_THRESHOLD: real := 0.45
  const EXTREME_THRESHOLD: real := 0.75
  const WEIGHT_QUEUE_DEPTH: real := 0.40
  const WEIGHT_WORKER_UTIL: real := 0.30
  const WEIGHT_RATE_RATIO: real := 0.15
  const WEIGHT_LATENCY: real := 0.15
  const MAX_EXPECTED_LATENCY_MS: real := 1000.0
  const DEFAULT_QUEUE_CAPACITY: int := 1000

  function AtMostOne(x: real): real {
    if x > 1.0 then 1.0 else x
  }

  function Clamp(x: real): (r: real)
    ensures 0.0 <= r <= 1.0 && (r == x || (x < 0.0 && r == 0.0) || (1.0 < x && r == 1.0))
  {
    if x < 0.0 then 0.0 else AtMostOne(x)
  }

  function SafeCapacity(capacity: Option<int>): (n: int)
    ensures n > 0 && (capacity == Some(n) || (n == 1000 && (capacity.None? || capacity.value <= 0)))
  {
    if capacity.Some? && capacity.value > 0 then capacity.value else DEFAULT_QUEUE_CAPACITY
  }

  function QueueFactor(l: Load, capacity: Option<int>): real {
    AtMostOne((l.critical + l.normal + l.bestEffort) as real / (SafeCapacity(capacity) * 3) as real)
  }

  function UtilFactor(l: Load): real {
    Clamp(l.utilization)
  }

  /** Ingress at twice the processing rate counts as full pressure; so does any ingress
      that nothing processes. */
  function RateFactor(ingress: real, processing: real): real {
    if processing > 0.0 then AtMostOne(ingress / (processing * 2.0))
    else if ingress > 0.0 then 1.0 else 0.0
  }

  function LatencyFactor(l: Load): real {
    AtMostOne(l.latencyMs / MAX_EXPECTED_LATENCY_MS)
  }

  function Weighted(queue: real, util: real, rate: real, latency: real): real {
    queue * WEIGHT_QUEUE_DEPTH + util * WEIGHT_WORKER_UTIL + rate * WEIGHT_RATE_RATIO + latency * WEIGHT_LATENCY
  }

  function RawScore(l: Load, capacity: Option<int>): real {
    Weighted(QueueFactor(l, capacity), UtilFactor(l), RateFactor(l.ingress, l.processing), LatencyFactor(l))
  }

  function Score(l: Load, capacity: Option<int>): real {
    Clamp(RawScore(l, capacity))
  }

  /** The score as reported; the state is decided before rounding. */
  function ReportedScore(l: Load, capacity: Option<int>): real {
    Round(Score(l, capacity), 10000.0)
  }

  function StateOf(score: real): State {
    if score >= EXTREME_THRESHOLD then Extreme else if score >= HIGH_THRESHOLD then High else State.Normal
  }

  function PressureState(l: Load, capacity: Option<int>): State {
    StateOf(Score(l, capacity))
  }

  function Decide(p: Priority, s: State): Action {
    match s
    case Normal => Stream
    case High => (match p case Critical => Stream case Normal => Batch case BestEffort => Sample)
    case Extreme => (match p case Critical => Stream case Normal => Defer case BestEffort => Shed)
  }

  datatype Allocation = Allocation(critical: nat, normal: nat, bestEffort: nat)

  function DesiredAllocation(s: State): Allocation {
    match s
    case Normal => Allocation(2, 4, 2)
    case High => Allocation(3, 4, 1)
    case Extreme => Allocation(4, 4, 0)
  }

  // ---- Order ----

  function Level(s: State): nat {
    match s
    case Normal => 0
    case High => 1
    case Extreme => 2
  }

  /** Actions from the mildest to the harshest, in the order they are declared. */
  function Severity(a: Action): nat {
    match a
    case Stream => 0
    case Batch => 1
    case Defer => 2
    case Sample => 3
    case Shed => 4
  }

  predicate Nonnegative(l: Load) {
    && 0 <= l.critical && 0 <= l.normal && 0 <= l.bestEffort
    && 0.0 <= l.utilization && 0.0 <= l.ingress && 0.0 <= l.processing && 0.0 <= l.latencyMs
  }

  /** `b` is at least as loaded as `a` in every respect: deeper in total, busier, with more
      coming in and no faster a processing rate. */
  predicate Heavier(a: Load, b: Load) {
    && a.critical + a.normal + a.bestEffort <= b.critical + b.normal + b.bestEffort
    && a.utilization <= b.utilization && a.ingress <= b.ingress
    && b.processing <= a.processing && a.latencyMs <= b.latencyMs
  }

  lemma LargerDivisor(x: real, small: real, large: real)
    requires 0.0 <= x && 0.0 < small <= large
    ensures x / large <= x / small
    ensures 0.0 <= x / large
  {
    var q, r := x / large, x / small;
    assert q * large == x && r * small == x;
    NonnegQuotient(x, large);
    MulNonneg(q, large - small);
    assert q * small <= r * small;
    CancelMul(q, r, small);
  }

  lemma NonnegQuotient(x: real, d: real)
    requires 0.0 <= x && 0.0 < d
    ensures 0.0 <= x / d
  {
  }

  /** The rate factor rises with ingress and falls with processing, across the branches
      where nothing is processed. */
  lemma RateFactorMonotone(in1: real, in2: real, out1: real, out2: real)
    requires 0.0 <= in1 <= in2 && 0.0 <= out2 <= out1
    ensures 0.0 <= RateFactor(in1, out1) <= RateFactor(in2, out2) <= 1.0
  {
    if out2 > 0.0 {
      LargerDivisor(in1, out2 * 2.0, out1 * 2.0);
      DivideMonotone(in1, in2, out2 * 2.0);
    } else if out1 > 0.0 {
      NonnegQuotient(in1, out1 * 2.0);
      if in2 == 0.0 {
        assert in1 / (out1 * 2.0) == 0.0;
      }
    }
  }

  lemma QueueFactorMonotone(a: Load, b: Load, capacity: Option<int>)
    requires Nonnegative(a) && a.critical + a.normal + a.bestEffort <= b.critical + b.normal + b.bestEffort
    ensures 0.0 <= QueueFactor(a, capacity) <= QueueFactor(b, capacity) <= 1.0
  {
    var n := (SafeCapacity(capacity) * 3) as real;
    DivideMonotone((a.critical + a.normal + a.bestEffort) as real, (b.critical + b.normal + b.bestEffort) as real, n);
    NonnegQuotient((a.critical + a.normal + a.bestEffort) as real, n);
  }

  /** On nonnegative figures the weights alone keep the score in range: the clamp is idle. */
  lemma ClampIsIdle(l: Load, capacity: Option<int>)
    requires Nonnegative(l)
    ensures 0.0 <= RawScore(l, capacity) <= 1.0 && Score(l, capacity) == RawScore(l, capacity)
  {
    QueueFactorMonotone(l, l, capacity);
    RateFactorMonotone(l.ingress, l.ingress, l.processing, l.processing);
  }

  lemma ScoreMonotone(a: Load, b: Load, capacity: Option<int>)
    requires Nonnegative(a) && Nonnegative(b) && Heavier(a, b)
    ensures Score(a, capacity) <= Score(b, capacity)
  {
    QueueFactorMonotone(a, b, capacity);
    RateFactorMonotone(a.ingress, b.ingress, a.processing, b.processing);
  }

  /** A faster processing rate never raises the rate factor. */
  ghost predicate FasterHelps(ingress: real) {
    forall slow, fast :: 0.0 <= slow <= fast ==> RateFactor(ingress, fast) <= RateFactor(ingress, slow)
  }

  /** The nonnegativity is needed, exactly: processing faster never raises the factor if and
      only if ingress is not negative. */
  lemma FasterHelpsIff(ingress: real)
    ensures FasterHelps(ingress) <==> 0.0 <= ingress
  {
    if 0.0 <= ingress {
      forall slow, fast | 0.0 <= slow <= fast
        ensures RateFactor(ingress, fast) <= RateFactor(ingress, slow)
      {
        RateFactorMonotone(ingress, ingress, fast, slow);
      }
    } else {
      Halved(ingress);
      assert RateFactor(ingress, 1.0) < RateFactor(ingress, 2.0);
    }
  }

  lemma Halved(x: real)
    requires x < 0.0
    ensures x / (1.0 * 2.0) == x * 0.5 && x / (2.0 * 2.0) == x * 0.25
  {
  }

  /** Any reported score is a fraction, whatever the figures. */
  lemma ReportedInRange(l: Load, capacity: Option<int>)
    ensures 0.0 <= ReportedScore(l, capacity) <= 1.0
  {
    RoundMonotone(0.0, Score(l, capacity), 10000.0);
    RoundMonotone(Score(l, capacity), 1.0, 10000.0);
    assert RoundInt(1.0 * 10000.0) == 10000;
  }

  /** More pressure never means a milder action on any lane, fewer workers for CRITICAL or
      more for BEST_EFFORT; the total stays at eight. */
  lemma HeavierLoadIsHandledHarder(a: Load, b: Load, capacity: Option<int>, p: Priority)
    requires Nonnegative(a) && Nonnegative(b) && Heavier(a, b)
    ensures Score(a, capacity) <= Score(b, capacity) && ReportedScore(a, capacity) <= ReportedScore(b, capacity)
    ensures var sa, sb := PressureState(a, capacity), PressureState(b, capacity);
      && Level(sa) <= Level(sb)
      && Severity(Decide(p, sa)) <= Severity(Decide(p, sb))
      && DesiredAllocation(sa).critical <= DesiredAllocation(sb).critical
      && DesiredAllocation(sb).bestEffort <= DesiredAllocation(sa).bestEffort
      && Workers(DesiredAllocation(sa)) == Workers(DesiredAllocation(sb)) == 8
  {
    ScoreMonotone(a, b, capacity);
    RoundMonotone(Score(a, capacity), Score(b, capacity), 10000.0);
    StateMonotone(Score(a, capacity), Score(b, capacity));
    LevelsDecide(PressureState(a, capacity), PressureState(b, capacity), p);
  }

  function Workers(a: Allocation): nat {
    a.critical + a.normal + a.bestEffort
  }

  lemma StateMonotone(x: real, y: real)
    requires x <= y
    ensures Level(StateOf(x)) <= Level(StateOf(y))
  {
  }

  lemma LevelsDecide(s: State, t: State, p: Priority)
    requires Level(s) <= Level(t)
    ensures Severity(Decide(p, s)) <= Severity(Decide(p, t))
    ensures DesiredAllocation(s).critical <= DesiredAllocation(t).critical
    ensures DesiredAllocation(t).bestEffort <= DesiredAllocation(s).bestEffort
    ensures Workers(DesiredAllocation(s)) == 8 && Workers(DesiredAllocation(t)) == 8
  {
  }

  // ---- What it takes ----

  /** A factor alone contributes its weight at most, and all of it exactly when saturated: a
      depth of three lane capacities, a fully busy pool, ingress at twice the processing rate
      or with nothing processed, a second of latency. */
  lemma FactorWeighs(l: Load, capacity: Option<int>)
    requires Nonnegative(l)
    ensures UtilFactor(l) == LatencyFactor(l) == RateFactor(l.ingress, l.processing) == 0.0 ==>
      Score(l, capacity) <= 0.40
      && (Score(l, capacity) == 0.40 <==> l.critical + l.normal + l.bestEffort >= 3 * SafeCapacity(capacity))
    ensures QueueFactor(l, capacity) == LatencyFactor(l) == RateFactor(l.ingress, l.processing) == 0.0 ==>
      Score(l, capacity) <= 0.30 && (Score(l, capacity) == 0.30 <==> l.utilization >= 1.0)
    ensures QueueFactor(l, capacity) == UtilFactor(l) == LatencyFactor(l) == 0.0 ==>
      Score(l, capacity) <= 0.15
      && (Score(l, capacity) == 0.15 <==> l.ingress > 0.0 && l.ingress >= l.processing * 2.0)
    ensures QueueFactor(l, capacity) == UtilFactor(l) == RateFactor(l.ingress, l.processing) == 0.0 ==>
      Score(l, capacity) <= 0.15 && (Score(l, capacity) == 0.15 <==> l.latencyMs >= MAX_EXPECTED_LATENCY_MS)
  {
    ClampIsIdle(l, capacity);
    QueueSaturates(l, capacity);
    RateSaturates(l.ingress, l.processing);
    LatencySaturates(l);
  }

  lemma SaturatesIff(x: real, d: real)
    requires 0.0 < d
    ensures x / d >= 1.0 <==> x >= d
  {
    var q := x / d;
    assert q * d == x;
    if q >= 1.0 {
      MulMonotone(1.0, q, d);
    }
    if x >= d {
      CancelMul(1.0, q, d);
    }
  }

  lemma QueueSaturates(l: Load, capacity: Option<int>)
    ensures QueueFactor(l, capacity) <= 1.0
    ensures QueueFactor(l, capacity) == 1.0 <==> l.critical + l.normal + l.bestEffort >= 3 * SafeCapacity(capacity)
  {
    SaturatesIff((l.critical + l.normal + l.bestEffort) as real, (SafeCapacity(capacity) * 3) as real);
  }

  lemma RateSaturates(ingress: real, processing: real)
    requires 0.0 <= ingress && 0.0 <= processing
    ensures RateFactor(ingress, processing) <= 1.0
    ensures RateFactor(ingress, processing) == 1.0 <==> ingress > 0.0 && ingress >= processing * 2.0
  {
    if processing > 0.0 {
      SaturatesIff(ingress, processing * 2.0);
    }
  }

  lemma LatencySaturates(l: Load)
    ensures LatencyFactor(l) <= 1.0 && (LatencyFactor(l) == 1.0 <==> l.latencyMs >= MAX_EXPECTED_LATENCY_MS)
  {
    SaturatesIff(l.latencyMs, MAX_EXPECTED_LATENCY_MS);
  }

  function Present(x: real): nat {
    if x > 0.0 then 1 else 0
  }

  /** How many of the four factors are above zero. */
  function Factors(l: Load, capacity: Option<int>): nat {
    Present(QueueFactor(l, capacity)) + Present(UtilFactor(l)) + Present(RateFactor(l.ingress, l.processing))
    + Present(LatencyFactor(l))
  }

  /** No single factor makes the pressure HIGH, and no two make it EXTREME, however bad. */
  lemma PressureNeedsCompany(l: Load, capacity: Option<int>)
    requires Nonnegative(l)
    ensures PressureState(l, capacity) == High ==> Factors(l, capacity) >= 2
    ensures PressureState(l, capacity) == Extreme ==> Factors(l, capacity) >= 3
  {
    QueueFactorMonotone(l, l, capacity);
    RateFactorMonotone(l.ingress, l.ingress, l.processing, l.processing);
    FactorsBound(QueueFactor(l, capacity), UtilFactor(l), RateFactor(l.ingress, l.processing), LatencyFactor(l));
  }

  predicate IsFraction(x: real) {
    0.0 <= x <= 1.0
  }

  lemma FactorsBound(q: real, u: real, r: real, t: real)
    requires IsFraction(q) && IsFraction(u) && IsFraction(r) && IsFraction(t)
    ensures Weighted(q, u, r, t) >= HIGH_THRESHOLD ==> Present(q) + Present(u) + Present(r) + Present(t) >= 2
    ensures Weighted(q, u, r, t) >= EXTREME_THRESHOLD ==> Present(q) + Present(u) + Present(r) + Present(t) >= 3
  {
  }

  /** The score while no factor is saturated: each figure as a fraction of its saturation, by
      weights of forty, thirty, fifteen and fifteen hundredths. */
  lemma ScoreIsWeighted(l: Load, capacity: Option<int>)
    requires Nonnegative(l) && 0.0 < l.processing && l.ingress <= 2.0 * l.processing
    requires l.critical + l.normal + l.bestEffort <= 3 * SafeCapacity(capacity)
    requires l.utilization <= 1.0 && l.latencyMs <= 1000.0
    ensures Score(l, capacity) ==
      0.40 * ((l.critical + l.normal + l.bestEffort) as real / (3 * SafeCapacity(capacity)) as real)
      + 0.30 * l.utilization + 0.15 * (l.ingress / (2.0 * l.processing)) + 0.15 * (l.latencyMs / 1000.0)
  {
    ClampIsIdle(l, capacity);
    AtMostWhole((l.critical + l.normal + l.bestEffort) as real, (SafeCapacity(capacity) * 3) as real);
    AtMostWhole(l.ingress, l.processing * 2.0);
    AtMostWhole(l.latencyMs, MAX_EXPECTED_LATENCY_MS);
  }

  lemma AtMostWhole(x: real, d: real)
    requires 0.0 < d && x <= d
    ensures AtMostOne(x / d) == x / d
  {
    var q := x / d;
    assert q * d == x;
    CancelMul(q, 1.0, d);
  }

  /** The reported score is the score to within half of its last decimal. */
  lemma ReportedNear(l: Load, capacity: Option<int>)
    ensures -0.00005 <= ReportedScore(l, capacity) - Score(l, capacity) <= 0.00005
  {
    RoundNear(Score(l, capacity), 10000.0);
    assert 0.5 / 10000.0 == 0.00005;
  }

  // ---- What the score decides ----

  /** The policy by score: CRITICAL always streams; NORMAL batches from 0.45 and defers from 0.75;
      BEST_EFFORT samples and sheds on the same two ranges; below them everything streams. */
  lemma ActionsByScore(l: Load, capacity: Option<int>)
    ensures var score, state := Score(l, capacity), PressureState(l, capacity);
      && Decide(Critical, state) == Stream
      && (Decide(Priority.Normal, state) == Stream <==> score < 0.45)
      && (Decide(Priority.Normal, state) == Batch <==> 0.45 <= score < 0.75)
      && (Decide(Priority.Normal, state) == Defer <==> 0.75 <= score)
      && (Decide(BestEffort, state) == Stream <==> score < 0.45)
      && (Decide(BestEffort, state) == Sample <==> 0.45 <= score < 0.75)
      && (Decide(BestEffort, state) == Shed <==> 0.75 <= score)
  {
  }

  /** The allocation by score: NORMAL keeps four workers; each of the two thresholds moves one
      worker from BEST_EFFORT, which starts with two, to CRITICAL, which starts with two. */
  lemma WorkersByScore(l: Load, capacity: Option<int>)
    ensures var score, a := Score(l, capacity), DesiredAllocation(PressureState(l, capacity));
      var moved := (if score >= 0.45 then 1 else 0) + (if score >= 0.75 then 1 else 0);
      a.normal == 4 && a.critical == 2 + moved && a.bestEffort == 2 - moved
  {
  }

  // ---- Keeping events ----

  /** Whether an event is kept, given how the sampler would fall. */
  predicate Kept(a: Action, coin: bool) {
    match a
    case Shed => false
    case Sample => coin
    case Stream | Batch | Defer => true
  }

  /** On the same fall of the sampler, an event kept under a load is kept under any lighter one. */
  lemma LighterLoadKeepsMore(a: Load, b: Load, capacity: Option<int>, p: Priority, coin: bool)
    requires Nonnegative(a) && Nonnegative(b) && Heavier(a, b)
    requires Kept(Decide(p, PressureState(b, capacity)), coin)
    ensures Kept(Decide(p, PressureState(a, capacity)), coin)
  {
    HeavierLoadIsHandledHarder(a, b, capacity, p);
  }

  /** What the sampler's random numbers lie in. */
  predicate IsDraw(draw: real) {
    0.0 <= draw < 1.0
  }

  /** The sampler keeps an event when the number it draws is below its rate. */
  predicate Drawn(draw: real, rate: real) {
    draw < rate
  }

  /** Only BEST_EFFORT can lose an event: the other lanes keep everything, on every load and
      every draw; BEST_EFFORT keeps everything exactly while pressure is normal, or short of
      extreme with a sampler set to keep everything. */
  lemma LaneIsSafeIff(l: Load, capacity: Option<int>, p: Priority, rate: real)
    requires 0.0 <= rate <= 1.0
    ensures (forall draw :: IsDraw(draw) ==> Kept(Decide(p, PressureState(l, capacity)), Drawn(draw, rate))) <==>
      p != BestEffort || Score(l, capacity) < HIGH_THRESHOLD || (Score(l, capacity) < EXTREME_THRESHOLD && rate == 1.0)
  {
    if rate < 1.0 {
      assert IsDraw(rate) && !Drawn(rate, rate);
    } else {
      assert IsDraw(0.0);
    }
  }
}
