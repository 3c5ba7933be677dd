/** The adaptive batch sizer: a table of sizes, hysteresis by consecutive signals, and a
    cooldown between adjustments. */
module BatchSizing {
  import opened Contracts

  datatype Config = Config(minSize: int, maxSize: int, growth: real, drain: real, lowQueue: int,
                           cooldownSec: real, required: int)

  const STEPS: seq<int> := [25, 50, 75, 100, 150, 200, 300, 400, 600, 800, 1000]

  datatype Lane = Lane(size: int, previous: int, grow: int, shrink: int, increaseCount: nat, decreaseCount: nat)

  /** What the source leaves to whoever writes the configuration. */
  predicate Sane(c: Config) {
    1 <= c.minSize <= c.maxSize && 1 <= c.required
  }

  function Max(a: int, b: int): int {
    if a < b then b else a
  }

  /** The lane's size when its queue is nearly empty. */
  function Floor(c: Config, p: Priority): int {
    if p == BestEffort then Min(c.maxSize, c.minSize * 2) else c.minSize
  }

  // ---- The step table ----

  /** The first table entry above `current`, from position `from` on, or `none`. */
  function Above(current: int, from: nat, none: int): int
    requires from <= |STEPS|
    decreases |STEPS| - from
  {
    if from == |STEPS| then none
    else if STEPS[from] > current then STEPS[from]
    else Above(current, from + 1, none)
  }

  /** The last table entry below `current`, before position `to`, or `none`. */
  function Below(current: int, to: nat, none: int): int
    requires to <= |STEPS|
  {
    if to == 0 then none
    else if STEPS[to - 1] < current then STEPS[to - 1]
    else Below(current, to - 1, none)
  }

  function NextUp(c: Config, current: int): int {
    Min(Above(current, 0, c.maxSize), c.maxSize)
  }

  function NextDown(c: Config, current: int): int {
    Max(Below(current, |STEPS|, c.minSize), c.minSize)
  }

  lemma StepsSorted(i: nat, j: nat)
    requires i < j < |STEPS|
    ensures STEPS[i] < STEPS[j]
  {
  }

  lemma AboveIsLeast(current: int, from: nat, none: int)
    requires from <= |STEPS| && forall i :: 0 <= i < from ==> STEPS[i] <= current
    ensures
      var r := Above(current, from, none);
      || (r in STEPS && r > current && forall i :: 0 <= i < |STEPS| && STEPS[i] > current ==> r <= STEPS[i])
      || (r == none && forall i :: 0 <= i < |STEPS| ==> STEPS[i] <= current)
    decreases |STEPS| - from
  {
    if from < |STEPS| && STEPS[from] <= current {
      AboveIsLeast(current, from + 1, none);
    } else if from < |STEPS| {
      forall i | 0 <= i < |STEPS| && STEPS[i] > current
        ensures STEPS[from] <= STEPS[i]
      {
        if i > from {
          StepsSorted(from, i);
        }
      }
    }
  }

  lemma BelowIsGreatest(current: int, to: nat, none: int)
    requires to <= |STEPS| && forall i :: to <= i < |STEPS| ==> STEPS[i] >= current
    ensures
      var r := Below(current, to, none);
      || (r in STEPS && r < current && forall i :: 0 <= i < |STEPS| && STEPS[i] < current ==> STEPS[i] <= r)
      || (r == none && forall i :: 0 <= i < |STEPS| ==> STEPS[i] >= current)
  {
    if to > 0 && STEPS[to - 1] >= current {
      BelowIsGreatest(current, to - 1, none);
    } else if to > 0 {
      forall i | 0 <= i < |STEPS| && STEPS[i] < current
        ensures STEPS[i] <= STEPS[to - 1]
      {
        if i < to - 1 {
          StepsSorted(i, to - 1);
        }
      }
    }
  }

  predicate InTable(x: int) {
    exists i :: 0 <= i < |STEPS| && STEPS[i] == x
  }

  /** Growing moves strictly towards the maximum and skips no table entry. */
  lemma UpMove(c: Config, current: int)
    requires Sane(c) && current < c.maxSize
    ensures current < NextUp(c, current) <= c.maxSize
    ensures NextUp(c, current) < c.maxSize ==> InTable(NextUp(c, current))
    ensures forall i :: 0 <= i < |STEPS| ==> !(current < STEPS[i] < NextUp(c, current))
  {
    AboveIsLeast(current, 0, c.maxSize);
  }

  /** Shrinking moves strictly towards the minimum and skips no table entry. */
  lemma DownMove(c: Config, current: int)
    requires Sane(c) && c.minSize < current
    ensures c.minSize <= NextDown(c, current) < current
    ensures c.minSize < NextDown(c, current) ==> InTable(NextDown(c, current))
    ensures forall i :: 0 <= i < |STEPS| ==> !(NextDown(c, current) < STEPS[i] < current)
  {
    BelowIsGreatest(current, |STEPS|, c.minSize);
  }

  /** The sizes that growth goes through, from the smallest, when the bounds leave room. */
  lemma TableClimb(c: Config)
    requires c.minSize <= 25 && 1000 <= c.maxSize
    ensures NextUp(c, 0) == 25 && NextUp(c, 25) == 50 && NextUp(c, 50) == 75 && NextUp(c, 75) == 100
    ensures NextUp(c, 100) == 150 && NextUp(c, 150) == 200 && NextUp(c, 200) == 300 && NextUp(c, 300) == 400
    ensures NextUp(c, 400) == 600 && NextUp(c, 600) == 800 && NextUp(c, 800) == 1000 && NextUp(c, 1000) == c.maxSize
  {
    ClimbTo(c, 0, 0);
    ClimbTo(c, 25, 1);
    ClimbTo(c, 50, 2);
    ClimbTo(c, 75, 3);
    ClimbTo(c, 100, 4);
    ClimbTo(c, 150, 5);
    ClimbTo(c, 200, 6);
    ClimbTo(c, 300, 7);
    ClimbTo(c, 400, 8);
    ClimbTo(c, 600, 9);
    ClimbTo(c, 800, 10);
    AboveIsLeast(1000, 0, c.maxSize);
  }

  lemma ClimbTo(c: Config, current: int, i: nat)
    requires i < |STEPS| && current < STEPS[i] && (i > 0 ==> STEPS[i - 1] <= current)
    ensures NextUp(c, current) == Min(STEPS[i], c.maxSize)
  {
    AboveIsLeast(current, 0, c.maxSize);
    var r := Above(current, 0, c.maxSize);
    if r in STEPS {
      var j :| 0 <= j < |STEPS| && STEPS[j] == r;
      if j < i {
        if j < i - 1 {
          StepsSorted(j, i - 1);
        }
      } else if i < j {
        StepsSorted(i, j);
      }
    }
  }

  lemma BoundsAreFixed(c: Config)
    requires Sane(c)
    ensures NextUp(c, c.maxSize) == c.maxSize && NextDown(c, c.minSize) == c.minSize
  {
    AboveIsLeast(c.maxSize, 0, c.maxSize);
    BelowIsGreatest(c.minSize, |STEPS|, c.minSize);
  }

  /** Between adjacent table entries inside the bounds, shrinking undoes growing. */
  lemma DownUndoesUp(c: Config, i: nat)
    requires Sane(c) && i + 1 < |STEPS| && c.minSize <= STEPS[i] && STEPS[i + 1] <= c.maxSize
    ensures NextUp(c, STEPS[i]) == STEPS[i + 1]
    ensures NextDown(c, STEPS[i + 1]) == STEPS[i]
  {
    StepsSorted(i, i + 1);
    AboveIsLeast(STEPS[i], 0, c.maxSize);
    BelowIsGreatest(STEPS[i + 1], |STEPS|, c.minSize);
    Adjacent(i, Above(STEPS[i], 0, c.maxSize));
    Adjacent(i, Below(STEPS[i + 1], |STEPS|, c.minSize));
  }

  lemma Adjacent(i: nat, x: int)
    requires i + 1 < |STEPS| && x in STEPS
    ensures x <= STEPS[i] || STEPS[i + 1] <= x
  {
    var j :| 0 <= j < |STEPS| && STEPS[j] == x;
    if j < i {
      StepsSorted(j, i);
    } else if i + 1 < j {
      StepsSorted(i + 1, j);
    }
  }

  // ---- One evaluated sample ----

  datatype Sample = Sample(rate: real, depth: int)

  function Resize(s: Lane, size: int, up: bool): Lane {
    if size == s.size then s
    else if up then s.(previous := s.size, size := size, increaseCount := s.increaseCount + 1)
    else s.(previous := s.size, size := size, decreaseCount := s.decreaseCount + 1)
  }

  /** The low-depth snap is booked as a decrease even when it raises the size. */
  function Evaluate(c: Config, p: Priority, s: Lane, x: Sample): Lane {
    if x.depth <= c.lowQueue then
      Resize(s, Floor(c, p), false).(grow := 0, shrink := 0)
    else if x.rate > c.growth then
      if s.grow + 1 >= c.required then Resize(s, NextUp(c, s.size), true).(grow := 0, shrink := 0)
      else s.(grow := s.grow + 1, shrink := 0)
    else if x.rate < c.drain then
      if s.shrink + 1 >= c.required then Resize(s, NextDown(c, s.size), false).(grow := 0, shrink := 0)
      else s.(shrink := s.shrink + 1, grow := 0)
    else s.(grow := 0, shrink := 0)
  }

  function Run(c: Config, p: Priority, s: Lane, xs: seq<Sample>): Lane
    decreases |xs|
  {
    if xs == [] then s else Run(c, p, Evaluate(c, p, s, xs[0]), xs[1..])
  }

  predicate Ok(c: Config, s: Lane) {
    && c.minSize <= s.size <= c.maxSize
    && 0 <= s.grow < c.required && 0 <= s.shrink < c.required
  }

  lemma NextInBounds(c: Config, size: int)
    requires Sane(c) && c.minSize <= size <= c.maxSize
    ensures c.minSize <= NextDown(c, size) <= size <= NextUp(c, size) <= c.maxSize
  {
    BoundsAreFixed(c);
    if size < c.maxSize {
      UpMove(c, size);
    }
    if c.minSize < size {
      DownMove(c, size);
    }
  }

  /** Whatever is sampled, the size stays within the configured bounds. */
  lemma EvaluateKeepsBounds(c: Config, p: Priority, s: Lane, x: Sample)
    requires Sane(c) && Ok(c, s)
    ensures Ok(c, Evaluate(c, p, s, x))
  {
    NextInBounds(c, s.size);
  }

  /** A decrease that is booked lowers the size if and only if it is not the snap to the floor
      from below it. */
  lemma BookedDecreaseLowersIff(c: Config, p: Priority, s: Lane, x: Sample)
    requires Sane(c) && Ok(c, s) && Evaluate(c, p, s, x).decreaseCount > s.decreaseCount
    ensures Evaluate(c, p, s, x).size < s.size <==> !(x.depth <= c.lowQueue && s.size < Floor(c, p))
  {
    BoundsAreFixed(c);
    if c.minSize < s.size {
      DownMove(c, s.size);
    }
  }

  /** With the default configuration, BEST_EFFORT drained to 50 and then nearly empty goes up to
      100, booked as a decrease. */
  lemma SnapCanRaise(c: Config, s: Lane, x: Sample)
    requires c.minSize == 50 && c.maxSize == 400 && s.size == 50 && x.depth <= c.lowQueue
    ensures Evaluate(c, BestEffort, s, x).size == 100
    ensures Evaluate(c, BestEffort, s, x).decreaseCount == s.decreaseCount + 1
  {
  }

  predicate Growing(c: Config, x: Sample) {
    x.depth > c.lowQueue && x.rate > c.growth
  }

  predicate Draining(c: Config, x: Sample) {
    x.depth > c.lowQueue && x.rate <= c.growth && x.rate < c.drain
  }

  /** Hysteresis: without a nearly empty queue, fewer samples than required change nothing. */
  lemma {:induction false} TooFewChangeNothing(c: Config, p: Priority, s: Lane, xs: seq<Sample>)
    requires 0 <= s.grow && 0 <= s.shrink
    requires s.grow + |xs| < c.required && s.shrink + |xs| < c.required
    requires forall i :: 0 <= i < |xs| ==> xs[i].depth > c.lowQueue
    ensures Run(c, p, s, xs).size == s.size
    decreases |xs|
  {
    if xs != [] {
      assert xs[0].depth > c.lowQueue;
      TooFewChangeNothing(c, p, Evaluate(c, p, s, xs[0]), xs[1..]);
    }
  }

  // ---- Streaks ----

  /** How many samples at the end of a run are growing, without a break. */
  function GrowStreak(c: Config, xs: seq<Sample>): nat {
    if xs == [] || !Growing(c, xs[|xs| - 1]) then 0 else GrowStreak(c, xs[..|xs| - 1]) + 1
  }

  function DrainStreak(c: Config, xs: seq<Sample>): nat {
    if xs == [] || !Draining(c, xs[|xs| - 1]) then 0 else DrainStreak(c, xs[..|xs| - 1]) + 1
  }

  lemma {:induction false} RunSnoc(c: Config, p: Priority, s: Lane, xs: seq<Sample>)
    requires xs != []
    ensures Run(c, p, s, xs) == Evaluate(c, p, Run(c, p, s, xs[..|xs| - 1]), xs[|xs| - 1])
    decreases |xs|
  {
    if |xs| > 1 {
      var s1, n := Evaluate(c, p, s, xs[0]), |xs| - 1;
      RunSnoc(c, p, s1, xs[1..]);
      assert xs[1..][..n - 1] == xs[..n][1..];
    } else {
      assert xs[..0] == [] && xs[1..] == [];
    }
  }

  /** What is left of a streak when every full round of it has been answered. */
  function Unanswered(streak: nat, required: int): nat {
    if streak == 0 then 0
    else
      var n := Unanswered(streak - 1, required) + 1;
      if n >= required then 0 else n
  }

  lemma NextProduct(q: int, m: int)
    ensures (q + 1) * m == q * m + m
  {
  }

  lemma FewerRounds(q: int, q': int, m: int)
    requires q < q' && 1 <= m
    ensures q * m + m <= q' * m
  {
    assert (q' - q - 1) * m >= 0;
  }

  lemma SameRemainder(q: int, q': int, m: int, r: int, r': int)
    requires 0 <= r < m && 0 <= r' < m && q * m + r == q' * m + r'
    ensures r == r'
  {
    if q < q' {
      FewerRounds(q, q', m);
    } else if q' < q {
      FewerRounds(q', q, m);
    }
  }

  lemma {:induction false} UnansweredRounds(streak: nat, required: int) returns (rounds: nat)
    requires required >= 1
    ensures 0 <= Unanswered(streak, required) < required
    ensures streak == rounds * required + Unanswered(streak, required)
    ensures CompletesRound(streak, required) ==> rounds > 0
  {
    rounds := 0;
    if streak > 0 {
      rounds := UnansweredRounds(streak - 1, required);
      if Unanswered(streak - 1, required) + 1 >= required {
        NextProduct(rounds, required);
        rounds := rounds + 1;
      }
    }
  }

  lemma UnansweredIsModulo(streak: nat, required: int)
    requires required >= 1
    ensures Unanswered(streak, required) == streak % required
  {
    var rounds := UnansweredRounds(streak, required);
    assert streak == (streak / required) * required + streak % required;
    SameRemainder(rounds, streak / required, required, Unanswered(streak, required), streak % required);
  }

  lemma {:induction false} CountersInRounds(c: Config, p: Priority, s: Lane, xs: seq<Sample>)
    requires Sane(c) && s.grow == s.shrink == 0
    ensures Run(c, p, s, xs).grow == Unanswered(GrowStreak(c, xs), c.required)
    ensures Run(c, p, s, xs).shrink == Unanswered(DrainStreak(c, xs), c.required)
  {
    if xs != [] {
      CountersInRounds(c, p, s, xs[..|xs| - 1]);
      RunSnoc(c, p, s, xs);
    }
  }

  /** The counters hold the unbroken streak at the end of the run, less the full rounds of it that
      have been answered with a move: a sample of any other kind starts both over. */
  lemma CountersAreStreaks(c: Config, p: Priority, s: Lane, xs: seq<Sample>)
    requires Sane(c) && s.grow == s.shrink == 0
    ensures Run(c, p, s, xs).grow == GrowStreak(c, xs) % c.required
    ensures Run(c, p, s, xs).shrink == DrainStreak(c, xs) % c.required
  {
    CountersInRounds(c, p, s, xs);
    UnansweredIsModulo(GrowStreak(c, xs), c.required);
    UnansweredIsModulo(DrainStreak(c, xs), c.required);
  }

  /** The streak ends a full round of the samples required. */
  predicate CompletesRound(streak: nat, required: int) {
    streak > 0 && Unanswered(streak, required) == 0
  }

  lemma CompletesRoundIff(streak: nat, required: int)
    requires required >= 1
    ensures CompletesRound(streak, required) <==> streak > 0 && streak % required == 0
  {
    UnansweredIsModulo(streak, required);
  }

  lemma EvaluatedSize(c: Config, p: Priority, s: Lane, x: Sample, grow: nat, drain: nat)
    requires Sane(c) && s.grow == Unanswered(grow, c.required) && s.shrink == Unanswered(drain, c.required)
    ensures Evaluate(c, p, s, x).size ==
      if x.depth <= c.lowQueue then (if p != BestEffort then c.minSize else Min(c.maxSize, 2 * c.minSize))
      else if Growing(c, x) && CompletesRound(grow + 1, c.required) then NextUp(c, s.size)
      else if Draining(c, x) && CompletesRound(drain + 1, c.required) then NextDown(c, s.size)
      else s.size
  {
    NextRound(grow, c.required);
    NextRound(drain, c.required);
  }

  lemma NextRound(streak: nat, required: int)
    ensures CompletesRound(streak + 1, required) <==> Unanswered(streak, required) + 1 >= required
  {
  }

  /** The size after each sample of a run, exactly: the floor on a nearly empty queue, one step up
      at the end of every full round of consecutive growing samples, one step down of draining
      ones, and no change otherwise. */
  lemma SizeMovesExactly(c: Config, p: Priority, s: Lane, xs: seq<Sample>)
    requires Sane(c) && s.grow == s.shrink == 0 && xs != []
    ensures
      var before, x := Run(c, p, s, xs[..|xs| - 1]), xs[|xs| - 1];
      Run(c, p, s, xs).size ==
        if x.depth <= c.lowQueue then (if p != BestEffort then c.minSize else Min(c.maxSize, 2 * c.minSize))
        else if CompletesRound(GrowStreak(c, xs), c.required) then NextUp(c, before.size)
        else if CompletesRound(DrainStreak(c, xs), c.required) then NextDown(c, before.size)
        else before.size
  {
    CountersInRounds(c, p, s, xs[..|xs| - 1]);
    RunSnoc(c, p, s, xs);
    EvaluatedSize(c, p, Run(c, p, s, xs[..|xs| - 1]), xs[|xs| - 1], GrowStreak(c, xs[..|xs| - 1]),
                  DrainStreak(c, xs[..|xs| - 1]));
  }

  lemma {:induction false} StreakIsUnbroken(c: Config, xs: seq<Sample>, n: nat)
    requires n <= GrowStreak(c, xs) || n <= DrainStreak(c, xs)
    ensures n <= |xs|
    ensures n <= GrowStreak(c, xs) ==> forall i :: |xs| - n <= i < |xs| ==> Growing(c, xs[i])
    ensures n <= DrainStreak(c, xs) ==> forall i :: |xs| - n <= i < |xs| ==> Draining(c, xs[i])
  {
    if n > 0 {
      StreakIsUnbroken(c, xs[..|xs| - 1], n - 1);
    }
  }

  lemma FullRound(n: nat, required: int)
    requires required >= 1 && CompletesRound(n, required)
    ensures n >= required
  {
    var rounds := UnansweredRounds(n, required);
    FewerRounds(0, rounds, required);
  }

  /** Hysteresis: above the low threshold the size rises only if the last `required` samples were
      all growing, and falls only if they were all draining. */
  lemma MovesNeedStreaks(c: Config, p: Priority, s: Lane, xs: seq<Sample>)
    requires Sane(c) && Ok(c, s) && s.grow == s.shrink == 0 && xs != [] && xs[|xs| - 1].depth > c.lowQueue
    ensures var before, after := Run(c, p, s, xs[..|xs| - 1]).size, Run(c, p, s, xs).size;
      && (after > before ==>
            c.required <= |xs| && forall i :: |xs| - c.required <= i < |xs| ==> Growing(c, xs[i]))
      && (after < before ==>
            c.required <= |xs| && forall i :: |xs| - c.required <= i < |xs| ==> Draining(c, xs[i]))
  {
    var before := Run(c, p, s, xs[..|xs| - 1]);
    SizeMovesExactly(c, p, s, xs);
    RunKeepsBounds(c, p, s, xs[..|xs| - 1]);
    NextInBounds(c, before.size);
    if CompletesRound(GrowStreak(c, xs), c.required) {
      FullRound(GrowStreak(c, xs), c.required);
      StreakIsUnbroken(c, xs, c.required);
    } else if CompletesRound(DrainStreak(c, xs), c.required) {
      FullRound(DrainStreak(c, xs), c.required);
      StreakIsUnbroken(c, xs, c.required);
    }
  }

  lemma {:induction false} RunKeepsBounds(c: Config, p: Priority, s: Lane, xs: seq<Sample>)
    requires Sane(c) && Ok(c, s)
    ensures Ok(c, Run(c, p, s, xs))
    decreases |xs|
  {
    if xs != [] {
      EvaluateKeepsBounds(c, p, s, xs[0]);
      RunKeepsBounds(c, p, Evaluate(c, p, s, xs[0]), xs[1..]);
    }
  }

  /** Each change of size is booked once, with the size before it: as an increase at a growing
      sample, and as a decrease at any other. */
  lemma ChangesAreBooked(c: Config, p: Priority, s: Lane, x: Sample)
    ensures var r := Evaluate(c, p, s, x);
      if r.size == s.size then
        r.previous == s.previous && r.increaseCount == s.increaseCount && r.decreaseCount == s.decreaseCount
      else
        && r.previous == s.size
        && r.increaseCount == s.increaseCount + (if Growing(c, x) then 1 else 0)
        && r.decreaseCount == s.decreaseCount + (if Growing(c, x) then 0 else 1)
  {
  }

  // ---- Convergence ----

  /** How many of the first `to` table entries lie strictly between two sizes. */
  function Between(lo: int, hi: int, to: nat): nat
    requires to <= |STEPS|
  {
    if to == 0 then 0 else Between(lo, hi, to - 1) + if lo < STEPS[to - 1] < hi then 1 else 0
  }

  lemma {:induction false} BetweenNarrows(lo: int, hi: int, lo': int, hi': int, to: nat)
    requires to <= |STEPS| && lo <= lo' && hi' <= hi
    ensures Between(lo', hi', to) <= Between(lo, hi, to)
    ensures (exists i :: 0 <= i < to && lo < STEPS[i] < hi && !(lo' < STEPS[i] < hi')) ==>
      Between(lo', hi', to) < Between(lo, hi, to)
  {
    if to > 0 {
      BetweenNarrows(lo, hi, lo', hi', to - 1);
    }
  }

  function Gap(lo: int, hi: int): nat {
    Between(lo, hi, |STEPS|)
  }

  /** How many growing samples are still needed to reach the maximum. */
  function UpLeft(c: Config, s: Lane): int {
    if s.size >= c.maxSize then 0 else c.required - s.grow + c.required * Gap(s.size, c.maxSize)
  }

  function DownLeft(c: Config, s: Lane): int {
    if s.size <= c.minSize then 0 else c.required - s.shrink + c.required * Gap(c.minSize, s.size)
  }

  lemma OneRoundLess(required: int, gap: int, gap': int)
    requires required >= 1 && gap' < gap
    ensures required + required * gap' <= required * gap
  {
    assert required * (gap - gap' - 1) >= 0;
  }

  lemma GrowingSample(c: Config, p: Priority, s: Lane, x: Sample)
    requires Sane(c) && Ok(c, s) && Growing(c, x)
    ensures s.size == c.maxSize ==> Evaluate(c, p, s, x).size == c.maxSize
    ensures s.size < c.maxSize ==> UpLeft(c, Evaluate(c, p, s, x)) < UpLeft(c, s)
  {
    BoundsAreFixed(c);
    if s.size < c.maxSize && s.grow + 1 >= c.required {
      UpMove(c, s.size);
      var up := NextUp(c, s.size);
      if up < c.maxSize {
        BetweenNarrows(s.size, c.maxSize, up, c.maxSize, |STEPS|);
        OneRoundLess(c.required, Gap(s.size, c.maxSize), Gap(up, c.maxSize));
      } else {
        assert c.required * Gap(s.size, c.maxSize) >= 0;
      }
    }
  }

  lemma DrainingSample(c: Config, p: Priority, s: Lane, x: Sample)
    requires Sane(c) && Ok(c, s) && Draining(c, x)
    ensures s.size == c.minSize ==> Evaluate(c, p, s, x).size == c.minSize
    ensures c.minSize < s.size ==> DownLeft(c, Evaluate(c, p, s, x)) < DownLeft(c, s)
  {
    BoundsAreFixed(c);
    if c.minSize < s.size && s.shrink + 1 >= c.required {
      DownMove(c, s.size);
      var down := NextDown(c, s.size);
      if c.minSize < down {
        BetweenNarrows(c.minSize, s.size, c.minSize, down, |STEPS|);
        OneRoundLess(c.required, Gap(c.minSize, s.size), Gap(c.minSize, down));
      } else {
        assert c.required * Gap(c.minSize, s.size) >= 0;
      }
    }
  }

  lemma {:induction false} UpConverges(c: Config, p: Priority, s: Lane, xs: seq<Sample>)
    requires Sane(c) && Ok(c, s) && UpLeft(c, s) <= |xs|
    requires forall i :: 0 <= i < |xs| ==> Growing(c, xs[i])
    ensures Run(c, p, s, xs).size == c.maxSize
    decreases |xs|
  {
    if xs != [] {
      assert Growing(c, xs[0]);
      EvaluateKeepsBounds(c, p, s, xs[0]);
      GrowingSample(c, p, s, xs[0]);
      UpConverges(c, p, Evaluate(c, p, s, xs[0]), xs[1..]);
    }
  }

  lemma {:induction false} DownConverges(c: Config, p: Priority, s: Lane, xs: seq<Sample>)
    requires Sane(c) && Ok(c, s) && DownLeft(c, s) <= |xs|
    requires forall i :: 0 <= i < |xs| ==> Draining(c, xs[i])
    ensures Run(c, p, s, xs).size == c.minSize
    decreases |xs|
  {
    if xs != [] {
      assert Draining(c, xs[0]);
      EvaluateKeepsBounds(c, p, s, xs[0]);
      DrainingSample(c, p, s, xs[0]);
      DownConverges(c, p, Evaluate(c, p, s, xs[0]), xs[1..]);
    }
  }

  /** Sustained growth reaches the maximum, and sustained drain the minimum, within the
      required streak for each table entry on the way and one for the bound itself. */
  lemma Converges(c: Config, p: Priority, s: Lane, xs: seq<Sample>)
    requires Sane(c) && Ok(c, s)
    ensures (forall i :: 0 <= i < |xs| ==> Growing(c, xs[i])) && |xs| >= c.required * (Gap(s.size, c.maxSize) + 1) ==>
      Run(c, p, s, xs).size == c.maxSize
    ensures (forall i :: 0 <= i < |xs| ==> Draining(c, xs[i])) && |xs| >= c.required * (Gap(c.minSize, s.size) + 1) ==>
      Run(c, p, s, xs).size == c.minSize
  {
    var up, down := Gap(s.size, c.maxSize), Gap(c.minSize, s.size);
    assert c.required * (up + 1) == c.required * up + c.required;
    assert c.required * (down + 1) == c.required * down + c.required;
    if (forall i :: 0 <= i < |xs| ==> Growing(c, xs[i])) && |xs| >= c.required * (up + 1) {
      UpConverges(c, p, s, xs);
    }
    if (forall i :: 0 <= i < |xs| ==> Draining(c, xs[i])) && |xs| >= c.required * (down + 1) {
      DownConverges(c, p, s, xs);
    }
  }

  // ---- The object ----

  class AdaptiveBatchSizer {
    const config: Config
    var normal: Lane
    var bestEffort: Lane
    var lastAdjustmentTime: real
    /** When each lane's size last changed, on the wall clock. */
    var normalChangedAt: real
    var bestEffortChangedAt: real

    constructor (config: Config)
      requires Sane(config)
      ensures this.config == config && lastAdjustmentTime == 0.0 && normalChangedAt == bestEffortChangedAt == 0.0
      ensures normal == Lane(config.minSize, config.minSize, 0, 0, 0, 0)
      ensures bestEffort == Lane(Floor(config, BestEffort), Floor(config, BestEffort), 0, 0, 0, 0)
      ensures Ok(config, normal) && Ok(config, bestEffort)
    {
      this.config := config;
      normal := Lane(config.minSize, config.minSize, 0, 0, 0, 0);
      bestEffort := Lane(Floor(config, BestEffort), Floor(config, BestEffort), 0, 0, 0, 0);
      lastAdjustmentTime, normalChangedAt, bestEffortChangedAt := 0.0, 0.0, 0.0;
    }

    /** The two searches of the step table. */
    method GetNextStep(current: int, up: bool) returns (r: int)
      ensures r == if up then NextUp(config, current) else NextDown(config, current)
    {
      if up {
        for i := 0 to |STEPS|
          invariant Above(current, 0, config.maxSize) == Above(current, i, config.maxSize)
        {
          if STEPS[i] > current {
            return Min(STEPS[i], config.maxSize);
          }
        }
        return config.maxSize;
      }
      for i := |STEPS| downto 0
        invariant Below(current, |STEPS|, config.minSize) == Below(current, i, config.minSize)
      {
        if STEPS[i] < current {
          return Max(STEPS[i], config.minSize);
        }
      }
      return config.minSize;
    }

    method EvaluateLane(p: Priority, s: Lane, x: Sample) returns (r: Lane, updated: bool)
      ensures r == Evaluate(config, p, s, x) && (updated <==> r.size != s.size)
    {
      r, updated := s, false;
      if x.depth <= config.lowQueue {
        var size := config.minSize;
        if p == BestEffort {
          size := Min(config.maxSize, config.minSize * 2);
        }
        if size != r.size {
          r := r.(previous := r.size, size := size, decreaseCount := r.decreaseCount + 1);
          updated := true;
        }
        r := r.(grow := 0, shrink := 0);
      } else if x.rate > config.growth {
        r := r.(grow := r.grow + 1, shrink := 0);
        if r.grow >= config.required {
          var size := GetNextStep(r.size, true);
          if size != r.size {
            r := r.(previous := r.size, size := size, increaseCount := r.increaseCount + 1);
            updated := true;
          }
          r := r.(grow := 0);
        }
      } else if x.rate < config.drain {
        r := r.(shrink := r.shrink + 1, grow := 0);
        if r.shrink >= config.required {
          var size := GetNextStep(r.size, false);
          if size != r.size {
            r := r.(previous := r.size, size := size, decreaseCount := r.decreaseCount + 1);
            updated := true;
          }
          r := r.(shrink := 0);
        }
      } else {
        r := r.(grow := 0, shrink := 0);
      }
    }

    /** The sizes in force; CRITICAL is not batched. */
    function Sizes(): map<Priority, int>
      reads this
    {
      map[Critical := 1, Normal := normal.size, BestEffort := bestEffort.size]
    }

    /** Nothing is evaluated within the cooldown of the last adjustment, so two adjustments
        are never closer than it. */
    method Calculate(normalSample: Sample, bestEffortSample: Sample, now: real, wall: real)
      returns (sizes: map<Priority, int>)
      modifies this
      ensures sizes == Sizes() && sizes.Keys == {Critical, Normal, BestEffort}
      ensures sizes[Critical] == 1 && sizes[Normal] == normal.size && sizes[BestEffort] == bestEffort.size
      ensures normalChangedAt == if normal.size != old(normal.size) then wall else old(normalChangedAt)
      ensures bestEffortChangedAt == if bestEffort.size != old(bestEffort.size) then wall else old(bestEffortChangedAt)
      ensures now - old(lastAdjustmentTime) < config.cooldownSec ==>
        normal == old(normal) && bestEffort == old(bestEffort) && lastAdjustmentTime == old(lastAdjustmentTime)
      ensures now - old(lastAdjustmentTime) >= config.cooldownSec ==>
        && normal == Evaluate(config, Normal, old(normal), normalSample)
        && bestEffort == Evaluate(config, BestEffort, old(bestEffort), bestEffortSample)
      ensures normal.size != old(normal.size) || bestEffort.size != old(bestEffort.size) ==>
        lastAdjustmentTime == now && now - old(lastAdjustmentTime) >= config.cooldownSec
      ensures normal.size == old(normal.size) && bestEffort.size == old(bestEffort.size) ==>
        lastAdjustmentTime == old(lastAdjustmentTime)
    {
      if now - lastAdjustmentTime < config.cooldownSec {
        return Sizes();
      }
      var updateNormal, updateBest;
      normal, updateNormal := EvaluateLane(Normal, normal, normalSample);
      bestEffort, updateBest := EvaluateLane(BestEffort, bestEffort, bestEffortSample);
      if updateNormal {
        normalChangedAt := wall;
      }
      if updateBest {
        bestEffortChangedAt := wall;
      }
      if updateNormal || updateBest {
        lastAdjustmentTime := now;
      }
      sizes := Sizes();
    }
  }
}
