/** The queue-lag autoscaler: an exponential moving average of the CRITICAL depth, a
    threshold on it, and a cooldown on scaling back down. */
module AutoScaling {
  import opened Contracts
  import opened Rounding
  import Staffing
  import WorkerPools

  datatype Config = Config(slaThreshold: real, alpha: real, cooldownSec: real)

  datatype Scaler = Scaler(
    ema: real,
    initialized: bool,
    scaledUp: bool,
    lastUp: Option<real>,
    lastDown: Option<real>,
    ups: nat,
    downs: nat)

  const NEW_SCALER := Scaler(0.0, false, false, None, None, 0, 0)

  /** The precondition the source leaves to its callers. */
  predicate Sane(c: Config) {
    0.0 < c.alpha <= 1.0 && 0.0 < c.cooldownSec
  }

  function Clamp(depth: real): real {
    if depth < 0.0 then 0.0 else depth
  }

  function Blend(alpha: real, v: real, ema: real): real {
    alpha * v + (1.0 - alpha) * ema
  }

  function UpdateEma(c: Config, s: Scaler, depth: real): Scaler {
    var v := Clamp(depth);
    if !s.initialized then s.(ema := v, initialized := true)
    else s.(ema := Blend(c.alpha, v, s.ema))
  }

  /** Decisions look at the average rounded to four decimals. */
  function Reading(s: Scaler): real {
    Round(s.ema, 10000.0)
  }

  function DecideOn(c: Config, s: Scaler, reading: real, t: real): Scaler {
    if reading >= c.slaThreshold then
      if s.scaledUp then s else s.(scaledUp := true, lastUp := Some(t), ups := s.ups + 1)
    else if s.scaledUp && t - (if s.lastUp.Some? then s.lastUp.value else 0.0) >= c.cooldownSec then
      s.(scaledUp := false, lastDown := Some(t), downs := s.downs + 1)
    else s
  }

  function Decide(c: Config, s: Scaler, t: real): Scaler {
    DecideOn(c, s, Reading(s), t)
  }

  datatype Sample = Sample(t: real, depth: real)

  function Evaluate(c: Config, s: Scaler, x: Sample): Scaler {
    Decide(c, UpdateEma(c, s, x.depth), x.t)
  }

  function Run(c: Config, s: Scaler, xs: seq<Sample>): Scaler {
    if xs == [] then s else Evaluate(c, Run(c, s, xs[..|xs| - 1]), xs[|xs| - 1])
  }

  predicate Nondecreasing(xs: seq<Sample>) {
    forall i, j :: 0 <= i <= j < |xs| ==> xs[i].t <= xs[j].t
  }

  // ---- Flapping ----

  /** Each completed up-down cycle has used up one cooldown since the first sample. */
  ghost predicate Paced(c: Config, s: Scaler, start: real, now: real) {
    && s.ups == s.downs + (if s.scaledUp then 1 else 0)
    && (s.scaledUp ==>
         (s.lastUp.Some? && s.lastUp.value <= now && start + s.downs as real * c.cooldownSec <= s.lastUp.value))
    && start + s.downs as real * c.cooldownSec <= now
  }

  lemma OneMoreCycle(n: nat, cooldown: real)
    ensures (n + 1) as real * cooldown == n as real * cooldown + cooldown
  {
  }

  lemma EvaluatePaced(c: Config, s: Scaler, x: Sample, start: real, now: real)
    requires Sane(c) && Paced(c, s, start, now) && now <= x.t
    ensures Paced(c, Evaluate(c, s, x), start, x.t)
  {
    OneMoreCycle(s.downs, c.cooldownSec);
  }

  lemma {:induction false} RunPaced(c: Config, xs: seq<Sample>)
    requires Sane(c) && Nondecreasing(xs) && xs != []
    ensures Paced(c, Run(c, NEW_SCALER, xs), xs[0].t, xs[|xs| - 1].t)
  {
    var n := |xs| - 1;
    if n == 0 {
      assert Run(c, NEW_SCALER, xs[..0]) == NEW_SCALER;
      EvaluatePaced(c, NEW_SCALER, xs[0], xs[0].t, xs[0].t);
    } else {
      RunPaced(c, xs[..n]);
      EvaluatePaced(c, Run(c, NEW_SCALER, xs[..n]), xs[n], xs[0].t, xs[n - 1].t);
    }
  }

  lemma WholeCooldowns(n: nat, t: real, c: real)
    requires 0.0 < c && n as real * c <= t
    ensures n <= (t / c).Floor
  {
    var q := t / c;
    assert q * c == t;
    CancelMul(n as real, q, c);
  }

  /** The flap bound: scale-ups and scale-downs alternate, and in any elapsed time the pool
      is scaled up at most once more than there are whole cooldowns in it. */
  lemma FlapBound(c: Config, xs: seq<Sample>)
    requires Sane(c) && Nondecreasing(xs) && xs != []
    ensures Run(c, NEW_SCALER, xs).ups - Run(c, NEW_SCALER, xs).downs == if Run(c, NEW_SCALER, xs).scaledUp then 1 else 0
    ensures Run(c, NEW_SCALER, xs).ups <= 1 + ((xs[|xs| - 1].t - xs[0].t) / c.cooldownSec).Floor
  {
    RunPaced(c, xs);
    CyclesFit(c, Run(c, NEW_SCALER, xs), xs[0].t, xs[|xs| - 1].t);
  }

  lemma CyclesFit(c: Config, s: Scaler, start: real, now: real)
    requires Sane(c) && Paced(c, s, start, now)
    ensures s.ups <= 1 + ((now - start) / c.cooldownSec).Floor
  {
    WholeCooldowns(s.downs, now - start, c.cooldownSec);
  }

  // ---- The average ----

  lemma Convex(a: real, v: real, e: real, lo: real, hi: real)
    requires 0.0 <= a <= 1.0 && lo <= v <= hi && lo <= e <= hi
    ensures lo <= Blend(a, v, e) <= hi
  {
    MulNonneg(a, v - lo);
    MulNonneg(1.0 - a, e - lo);
    MulNonneg(a, hi - v);
    MulNonneg(1.0 - a, hi - e);
  }

  lemma EvaluateEma(c: Config, s: Scaler, x: Sample)
    ensures Evaluate(c, s, x).initialized
    ensures Evaluate(c, s, x).ema == UpdateEma(c, s, x.depth).ema
  {
  }

  /** One update stays between the old average and the sample. */
  lemma UpdateInHull(c: Config, s: Scaler, x: Sample, lo: real, hi: real)
    requires Sane(c) && (s.initialized ==> lo <= s.ema <= hi) && lo <= Clamp(x.depth) <= hi
    ensures lo <= Evaluate(c, s, x).ema <= hi
  {
    EvaluateEma(c, s, x);
    if s.initialized {
      Convex(c.alpha, Clamp(x.depth), s.ema, lo, hi);
    }
  }

  /** The average never leaves the range of the samples. */
  lemma {:induction false} EmaInHull(c: Config, xs: seq<Sample>, lo: real, hi: real)
    requires Sane(c) && xs != []
    requires forall i :: 0 <= i < |xs| ==> lo <= Clamp(xs[i].depth) <= hi
    ensures Run(c, NEW_SCALER, xs).initialized && lo <= Run(c, NEW_SCALER, xs).ema <= hi
  {
    var n := |xs| - 1;
    var before := Run(c, NEW_SCALER, xs[..n]);
    if n == 0 {
      assert before == NEW_SCALER;
    } else {
      EmaInHull(c, xs[..n], lo, hi);
    }
    EvaluateEma(c, before, xs[n]);
    UpdateInHull(c, before, xs[n], lo, hi);
  }

  lemma BernoulliStep(e: real, a: real, m: real)
    requires 0.0 <= e && 0.0 < a <= 1.0 && 0.0 <= m
    ensures DecayBound(a, (1.0 - a) * e, m + 1.0) <= DecayBound(a, e, m)
  {
    assert (1.0 - a) * (1.0 + (m + 1.0) * a) == 1.0 + m * a - (m + 1.0) * (a * a);
    MulNonneg(a, a);
    MulNonneg(m + 1.0, a * a);
    MulNonneg(e, (m + 1.0) * (a * a));
    assert ((1.0 - a) * e) * (1.0 + (m + 1.0) * a) == e * ((1.0 - a) * (1.0 + (m + 1.0) * a));
    assert e * (1.0 + m * a - (m + 1.0) * (a * a)) == e * (1.0 + m * a) - e * ((m + 1.0) * (a * a));
  }

  /** The average after one empty sample. */
  lemma QuietUpdate(c: Config, s: Scaler, x: Sample)
    requires Sane(c) && s.initialized && 0.0 <= s.ema && x.depth <= 0.0
    ensures Evaluate(c, s, x).ema == (1.0 - c.alpha) * s.ema
    ensures 0.0 <= Evaluate(c, s, x).ema <= s.ema
  {
    MulNonneg(1.0 - c.alpha, s.ema);
    MulNonneg(c.alpha, s.ema);
    EvaluateEma(c, s, x);
    assert (1.0 - c.alpha) * s.ema == s.ema - c.alpha * s.ema;
  }

  predicate AllQuiet(xs: seq<Sample>) {
    forall i :: 0 <= i < |xs| ==> xs[i].depth <= 0.0
  }

  ghost predicate Decayed(c: Config, e0: real, e: real, m: real) {
    0.0 <= e && DecayBound(c.alpha, e, m) <= e0
  }

  /** What an average of `e` after `m` empty samples must have started from, at least. */
  function DecayBound(a: real, e: real, m: real): real {
    e * (1.0 + m * a)
  }

  lemma DecayByFactor(c: Config, e: real, next: real, e0: real, m: real)
    requires Sane(c) && 0.0 <= m && Decayed(c, e0, e, m) && 0.0 <= next && next == (1.0 - c.alpha) * e
    ensures Decayed(c, e0, next, m + 1.0)
  {
    BernoulliStep(e, c.alpha, m);
  }

  lemma DecayStep(c: Config, s: Scaler, x: Sample, e0: real, m: real)
    requires Sane(c) && s.initialized && x.depth <= 0.0 && 0.0 <= m && Decayed(c, e0, s.ema, m)
    ensures Decayed(c, e0, Evaluate(c, s, x).ema, m + 1.0)
  {
    QuietUpdate(c, s, x);
    DecayByFactor(c, s.ema, Evaluate(c, s, x).ema, e0, m);
  }

  /** After `n` empty samples the average has decayed to at most `E / (1 + n * alpha)`. */
  lemma {:induction false} EmaDecays(c: Config, s: Scaler, xs: seq<Sample>)
    requires Sane(c) && s.initialized && 0.0 <= s.ema && AllQuiet(xs)
    ensures Run(c, s, xs).initialized
    ensures Decayed(c, s.ema, Run(c, s, xs).ema, |xs| as real)
  {
    if xs != [] {
      var n := |xs| - 1;
      EmaDecays(c, s, xs[..n]);
      EvaluateEma(c, Run(c, s, xs[..n]), xs[n]);
      DecayStep(c, Run(c, s, xs[..n]), xs[n], s.ema, n as real);
      assert |xs| as real == n as real + 1.0;
    }
  }

  // ---- Scale-down is eventually allowed ----

  lemma ReadingBelow(sla: real, ema: real, e0: real, k: real)
    requires 1.0 <= k && ema * k <= e0 && e0 < (sla - 0.00005) * k
    ensures Round(ema, 10000.0) < sla
  {
    RoundNear(ema, 10000.0);
    assert 0.5 / 10000.0 == 0.00005;
    if ema >= sla - 0.00005 {
      MulMonotone(sla - 0.00005, ema, k);
      assert false;
    }
  }

  /** So many empty samples that the decay bound is under the threshold by more than the rounding error. */
  predicate Enough(c: Config, e0: real, samples: real) {
    e0 < (c.slaThreshold - 0.00005) * (1.0 + samples * c.alpha)
  }

  /** Once quiet, the pool either is still up from the same scale-up or is down for good. */
  ghost predicate UpOnceOrDown(c: Config, s: Scaler, r: Scaler) {
    (r.scaledUp && r.lastUp == s.lastUp) || (!r.scaledUp && Reading(r) < c.slaThreshold)
  }

  lemma QuietStep(c: Config, s: Scaler, r: Scaler, x: Sample)
    requires Sane(c) && r.initialized && 0.0 <= r.ema && x.depth <= 0.0 && UpOnceOrDown(c, s, r)
    ensures UpOnceOrDown(c, s, Evaluate(c, r, x))
  {
    QuietUpdate(c, r, x);
    EvaluateEma(c, r, x);
    RoundMonotone(Evaluate(c, r, x).ema, r.ema, 10000.0);
  }

  lemma {:induction false} QuietRun(c: Config, s: Scaler, xs: seq<Sample>)
    requires Sane(c) && s.initialized && 0.0 <= s.ema && s.scaledUp && AllQuiet(xs)
    ensures UpOnceOrDown(c, s, Run(c, s, xs))
  {
    if xs != [] {
      var n := |xs| - 1;
      EmaDecays(c, s, xs[..n]);
      QuietRun(c, s, xs[..n]);
      QuietStep(c, s, Run(c, s, xs[..n]), xs[n]);
    }
  }

  /** An explicit number of empty samples after which a scaled-up pool is scaled down: enough
      that the decay bound is under the threshold by more than the rounding error, with the
      last of them at least a cooldown after the scale-up. */
  lemma ScalesDownAfterQuiet(c: Config, s: Scaler, xs: seq<Sample>)
    requires Sane(c) && s.initialized && 0.0 <= s.ema && s.scaledUp && s.lastUp.Some?
    requires xs != [] && AllQuiet(xs)
    requires Enough(c, s.ema, |xs| as real)
    requires xs[|xs| - 1].t - s.lastUp.value >= c.cooldownSec
    ensures !Run(c, s, xs).scaledUp
  {
    var n := |xs| - 1;
    var before := Run(c, s, xs[..n]);
    QuietRun(c, s, xs[..n]);
    EmaDecays(c, s, xs);
    assert Run(c, s, xs) == Evaluate(c, before, xs[n]);
    DownWhenLow(c, s, before, xs[n], |xs| as real);
  }

  lemma DownWhenLow(c: Config, s: Scaler, before: Scaler, x: Sample, m: real)
    requires Sane(c) && s.lastUp.Some? && UpOnceOrDown(c, s, before) && 0.0 <= m
    requires Decayed(c, s.ema, Evaluate(c, before, x).ema, m)
    requires Enough(c, s.ema, m)
    requires x.t - s.lastUp.value >= c.cooldownSec
    ensures !Evaluate(c, before, x).scaledUp
  {
    EvaluateEma(c, before, x);
    MulNonneg(m, c.alpha);
    ReadingBelow(c.slaThreshold, Evaluate(c, before, x).ema, s.ema, 1.0 + m * c.alpha);
  }

  // ---- Scale-up under load ----

  /** How far the average is below a level. */
  function Deficit(level: real, ema: real): real {
    if ema < level then level - ema else 0.0
  }

  lemma BlendGap(a: real, v: real, e: real, level: real)
    ensures Blend(a, v, e) - level == a * (v - level) - (1.0 - a) * (level - e)
  {
  }

  lemma DeficitShrinks(a: real, v: real, e: real, level: real)
    requires 0.0 < a <= 1.0 && level <= v
    ensures Deficit(level, Blend(a, v, e)) <= (1.0 - a) * Deficit(level, e)
  {
    BlendGap(a, v, e, level);
    MulNonneg(a, v - level);
    if e < level {
      MulNonneg(1.0 - a, level - e);
    } else {
      MulNonneg(1.0 - a, e - level);
      assert (1.0 - a) * (level - e) == -((1.0 - a) * (e - level));
      assert (1.0 - a) * 0.0 == 0.0;
    }
  }

  /** The deficit after one sample at or above the level. */
  lemma LoadedUpdate(c: Config, s: Scaler, x: Sample, level: real)
    requires Sane(c) && s.initialized && 0.0 <= level <= x.depth
    ensures 0.0 <= Deficit(level, Evaluate(c, s, x).ema) <= (1.0 - c.alpha) * Deficit(level, s.ema)
  {
    EvaluateEma(c, s, x);
    DeficitShrinks(c.alpha, Clamp(x.depth), s.ema, level);
  }

  predicate AllLoaded(xs: seq<Sample>, level: real) {
    forall i :: 0 <= i < |xs| ==> xs[i].depth >= level
  }

  lemma DecayAtMost(c: Config, e: real, next: real, e0: real, m: real)
    requires Sane(c) && 0.0 <= m && Decayed(c, e0, e, m) && 0.0 <= next <= (1.0 - c.alpha) * e
    ensures Decayed(c, e0, next, m + 1.0)
  {
    BernoulliStep(e, c.alpha, m);
    MulNonneg(m + 1.0, c.alpha);
    MulMonotone(next, (1.0 - c.alpha) * e, 1.0 + (m + 1.0) * c.alpha);
  }

  lemma DeficitStep(c: Config, s: Scaler, x: Sample, level: real, d0: real, m: real)
    requires Sane(c) && s.initialized && 0.0 <= level <= x.depth && 0.0 <= m
    requires Decayed(c, d0, Deficit(level, s.ema), m)
    ensures Decayed(c, d0, Deficit(level, Evaluate(c, s, x).ema), m + 1.0)
  {
    LoadedUpdate(c, s, x, level);
    DecayAtMost(c, Deficit(level, s.ema), Deficit(level, Evaluate(c, s, x).ema), d0, m);
  }

  lemma {:induction false} DeficitDecays(c: Config, s: Scaler, xs: seq<Sample>, level: real)
    requires Sane(c) && s.initialized && 0.0 <= level && AllLoaded(xs, level)
    ensures Run(c, s, xs).initialized
    ensures Decayed(c, Deficit(level, s.ema), Deficit(level, Run(c, s, xs).ema), |xs| as real)
  {
    if xs != [] {
      var n := |xs| - 1;
      DeficitDecays(c, s, xs[..n], level);
      EvaluateEma(c, Run(c, s, xs[..n]), xs[n]);
      DeficitStep(c, Run(c, s, xs[..n]), xs[n], level, Deficit(level, s.ema), n as real);
      assert |xs| as real == n as real + 1.0;
    }
  }

  lemma ReadingAbove(sla: real, level: real, ema: real, d0: real, k: real)
    requires 1.0 <= k && Deficit(level, ema) * k <= d0 && d0 < (level - sla - 0.00005) * k
    ensures Round(ema, 10000.0) >= sla
  {
    RoundNear(ema, 10000.0);
    assert 0.5 / 10000.0 == 0.00005;
    if Deficit(level, ema) >= level - sla - 0.00005 {
      MulMonotone(level - sla - 0.00005, Deficit(level, ema), k);
      assert false;
    }
  }

  /** So many samples at a level that the bound on the deficit is under what separates the level
      from the threshold by more than the rounding error. */
  predicate EnoughLoad(c: Config, level: real, d0: real, samples: real) {
    d0 < (level - c.slaThreshold - 0.00005) * (1.0 + samples * c.alpha)
  }

  lemma UpWhenLoaded(c: Config, before: Scaler, x: Sample, level: real, d0: real, m: real)
    requires Sane(c) && 0.0 <= m && EnoughLoad(c, level, d0, m)
    requires Decayed(c, d0, Deficit(level, Evaluate(c, before, x).ema), m)
    ensures Evaluate(c, before, x).scaledUp
  {
    MulNonneg(m, c.alpha);
    ReadingAbove(c.slaThreshold, level, Evaluate(c, before, x).ema, d0, 1.0 + m * c.alpha);
    ScalesExactlyWhen(c, before, x);
  }

  /** An explicit number of samples at or above a level over the threshold after which the pool
      is up. */
  lemma ScalesUpAfterLoad(c: Config, s: Scaler, xs: seq<Sample>, level: real)
    requires Sane(c) && s.initialized && 0.0 <= level && xs != [] && AllLoaded(xs, level)
    requires EnoughLoad(c, level, Deficit(level, s.ema), |xs| as real)
    ensures Run(c, s, xs).scaledUp
  {
    var n := |xs| - 1;
    DeficitDecays(c, s, xs, level);
    UpWhenLoaded(c, Run(c, s, xs[..n]), xs[n], level, Deficit(level, s.ema), |xs| as real);
  }

  // ---- Exactly when the pool is up ----

  /** The instant the cooldown is measured from. */
  function UpSince(s: Scaler): real {
    if s.lastUp.Some? then s.lastUp.value else 0.0
  }

  /** One evaluation, exactly: the pool is up after it if and only if the rounded average
      reaches the threshold, or it was up and the cooldown is not over; each change is dated
      and counted, and nothing else is. */
  lemma ScalesExactlyWhen(c: Config, s: Scaler, x: Sample)
    ensures var r := Evaluate(c, s, x);
      && (r.scaledUp <==> Round(r.ema, 10000.0) >= c.slaThreshold || (s.scaledUp && x.t - UpSince(s) < c.cooldownSec))
      && (if !s.scaledUp && r.scaledUp then r.lastUp == Some(x.t) && r.ups == s.ups + 1
          else r.lastUp == s.lastUp && r.ups == s.ups)
      && (if s.scaledUp && !r.scaledUp then r.lastDown == Some(x.t) && r.downs == s.downs + 1
          else r.lastDown == s.lastDown && r.downs == s.downs)
  {
    EvaluateEma(c, s, x);
  }

  /** The average as it was read at the `i`-th sample. */
  function ReadingAt(c: Config, xs: seq<Sample>, i: nat): real
    requires i < |xs|
  {
    Round(Run(c, NEW_SCALER, xs[..i + 1]).ema, 10000.0)
  }

  /** The pool went up at the `i`-th sample, and since then every reading below the threshold
      came before the cooldown was over. */
  ghost predicate UpFrom(c: Config, xs: seq<Sample>, i: nat) {
    && i < |xs| && ReadingAt(c, xs, i) >= c.slaThreshold && !Run(c, NEW_SCALER, xs[..i]).scaledUp
    && forall j: nat :: i < j < |xs| ==> ReadingAt(c, xs, j) >= c.slaThreshold || xs[j].t - xs[i].t < c.cooldownSec
  }

  lemma ReadingOfPrefix(c: Config, xs: seq<Sample>, n: nat, j: nat)
    requires j < n <= |xs|
    ensures ReadingAt(c, xs[..n], j) == ReadingAt(c, xs, j)
  {
    assert xs[..n][..j + 1] == xs[..j + 1];
  }

  lemma UpFromShrinks(c: Config, xs: seq<Sample>, n: nat, i: nat)
    requires i < n == |xs| - 1 && UpFrom(c, xs, i)
    ensures UpFrom(c, xs[..n], i)
    ensures ReadingAt(c, xs, n) >= c.slaThreshold || xs[n].t - xs[i].t < c.cooldownSec
  {
    ReadingOfPrefix(c, xs, n, i);
    assert xs[..n][..i] == xs[..i];
    forall j: nat | i < j < n
      ensures ReadingAt(c, xs[..n], j) >= c.slaThreshold || xs[..n][j].t - xs[..n][i].t < c.cooldownSec
    {
      ReadingOfPrefix(c, xs, n, j);
    }
  }

  lemma UpFromExtends(c: Config, xs: seq<Sample>, n: nat, i: nat)
    requires i < n == |xs| - 1 && UpFrom(c, xs[..n], i)
    requires ReadingAt(c, xs, n) >= c.slaThreshold || xs[n].t - xs[i].t < c.cooldownSec
    ensures UpFrom(c, xs, i)
  {
    ReadingOfPrefix(c, xs, n, i);
    assert xs[..n][..i] == xs[..i];
    forall j: nat | i < j < |xs|
      ensures ReadingAt(c, xs, j) >= c.slaThreshold || xs[j].t - xs[i].t < c.cooldownSec
    {
      if j < n {
        ReadingOfPrefix(c, xs, n, j);
        assert xs[..n][j] == xs[j] && xs[..n][i] == xs[i];
      }
    }
  }

  /** Over any run, in terms of readings and times: the pool is up if and only if it went up at
      some sample and every later reading below the threshold came within the cooldown. */
  lemma {:induction false} UpIff(c: Config, xs: seq<Sample>)
    ensures Run(c, NEW_SCALER, xs).scaledUp <==> exists i: nat :: UpFrom(c, xs, i)
    ensures forall i: nat :: UpFrom(c, xs, i) ==> Run(c, NEW_SCALER, xs).lastUp == Some(xs[i].t)
  {
    if xs != [] {
      var n: nat := |xs| - 1;
      var before := Run(c, NEW_SCALER, xs[..n]);
      assert xs[..n + 1] == xs;
      UpIff(c, xs[..n]);
      ScalesExactlyWhen(c, before, xs[n]);
      forall i: nat | UpFrom(c, xs, i)
        ensures Run(c, NEW_SCALER, xs).scaledUp && Run(c, NEW_SCALER, xs).lastUp == Some(xs[i].t)
      {
        if i < n {
          UpFromShrinks(c, xs, n, i);
        }
      }
      if Run(c, NEW_SCALER, xs).scaledUp {
        if before.scaledUp {
          var i: nat :| UpFrom(c, xs[..n], i);
          UpFromExtends(c, xs, n, i);
        } else {
          assert UpFrom(c, xs, n);
        }
      }
    }
  }

  // ---- The average, in closed form ----

  function Pow(b: real, n: nat): real {
    if n == 0 then 1.0 else b * Pow(b, n - 1)
  }

  function Scaled(b: real, ws: seq<real>): (r: seq<real>)
    ensures |r| == |ws|
    ensures forall i :: 0 <= i < |ws| ==> r[i] == b * ws[i]
  {
    seq(|ws|, i requires 0 <= i < |ws| => b * ws[i])
  }

  /** What each of `n` samples weighs: every new one takes the share `a` and the others keep the
      share `b` of what they had. */
  function Weights(a: real, b: real, n: nat): (ws: seq<real>)
    ensures |ws| == n
  {
    if n == 0 then [] else if n == 1 then [1.0] else Scaled(b, Weights(a, b, n - 1)) + [a]
  }

  lemma {:induction false} FirstWeight(a: real, b: real, n: nat)
    requires 0 < n
    ensures Weights(a, b, n)[0] == Pow(b, n - 1)
  {
    if n > 1 {
      FirstWeight(a, b, n - 1);
    }
  }

  /** The weight of a sample that `age` others follow. */
  lemma {:induction false} LaterWeight(a: real, b: real, n: nat, age: nat)
    requires age + 1 < n
    ensures Weights(a, b, n)[n - 1 - age] == a * Pow(b, age)
  {
    if age > 0 {
      LaterWeight(a, b, n - 1, age - 1);
      Swap(a, b, Pow(b, age - 1));
    }
  }

  /** The weights decay exponentially with age; the first sample stands for all before it. */
  lemma WeightAt(a: real, b: real, n: nat, i: nat)
    requires i < n
    ensures Weights(a, b, n)[i] == if i == 0 then Pow(b, n - 1) else a * Pow(b, n - 1 - i)
  {
    if i == 0 {
      FirstWeight(a, b, n);
    } else {
      LaterWeight(a, b, n, n - 1 - i);
    }
  }

  lemma Swap(x: real, y: real, z: real)
    ensures x * (y * z) == y * (x * z)
  {
  }

  /** A sample as the average takes it: a negative depth counts as zero. */
  function DepthAt(xs: seq<Sample>, i: nat): real
    requires i < |xs|
  {
    if xs[i].depth < 0.0 then 0.0 else xs[i].depth
  }

  function Dot(ws: seq<real>, xs: seq<Sample>, k: nat): real
    requires k <= |ws| && k <= |xs|
  {
    if k == 0 then 0.0 else Dot(ws, xs, k - 1) + ws[k - 1] * DepthAt(xs, k - 1)
  }

  lemma SumStep(x: real, d: real, s: real, v: real)
    ensures x * d + (x * s) * v == x * (d + s * v)
  {
    assert (x * s) * v == x * (s * v);
  }

  lemma {:induction false} DotScales(b: real, ws: seq<real>, xs: seq<Sample>, k: nat)
    requires k <= |ws| && k <= |xs|
    ensures Dot(Scaled(b, ws), xs, k) == b * Dot(ws, xs, k)
  {
    if k == 0 {
      assert Dot(ws, xs, 0) == 0.0;
    } else {
      DotScales(b, ws, xs, k - 1);
      SumStep(b, Dot(ws, xs, k - 1), ws[k - 1], DepthAt(xs, k - 1));
    }
  }

  lemma {:induction false} DotOfPrefix(ws: seq<real>, vs: seq<real>, xs: seq<Sample>, ys: seq<Sample>, k: nat)
    requires k <= |ws| && k <= |xs| && ws <= vs && xs <= ys
    ensures Dot(vs, ys, k) == Dot(ws, xs, k)
  {
    if k > 0 {
      DotOfPrefix(ws, vs, xs, ys, k - 1);
    }
  }

  lemma OneMoreSample(a: real, xs: seq<Sample>, n: nat)
    requires 0 < n == |xs| - 1
    ensures Dot(Weights(a, 1.0 - a, n + 1), xs, n + 1)
         == Blend(a, Clamp(xs[n].depth), Dot(Weights(a, 1.0 - a, n), xs[..n], n))
  {
    var faded := Scaled(1.0 - a, Weights(a, 1.0 - a, n));
    DotOfPrefix(faded, Weights(a, 1.0 - a, n + 1), xs[..n], xs, n);
    DotScales(1.0 - a, Weights(a, 1.0 - a, n), xs[..n], n);
    assert Weights(a, 1.0 - a, n + 1)[n] == a;
  }

  lemma FirstSample(a: real, xs: seq<Sample>)
    requires |xs| == 1
    ensures Dot(Weights(a, 1.0 - a, 1), xs, 1) == Clamp(xs[0].depth)
  {
    assert Dot(Weights(a, 1.0 - a, 1), xs, 0) == 0.0;
  }

  /** The average is the sum of the samples by exponentially decaying weights. */
  lemma {:induction false} EmaIsWeighted(c: Config, xs: seq<Sample>)
    requires xs != []
    ensures Run(c, NEW_SCALER, xs).initialized
    ensures Run(c, NEW_SCALER, xs).ema == Dot(Weights(c.alpha, 1.0 - c.alpha, |xs|), xs, |xs|)
  {
    var n := |xs| - 1;
    EvaluateEma(c, Run(c, NEW_SCALER, xs[..n]), xs[n]);
    if n == 0 {
      assert Run(c, NEW_SCALER, xs[..0]) == NEW_SCALER;
      FirstSample(c.alpha, xs);
    } else {
      EmaIsWeighted(c, xs[..n]);
      OneMoreSample(c.alpha, xs, n);
    }
  }

  // ---- The object ----

  class QueueLagAutoScaler {
    const config: Config
    const pool: WorkerPools.WorkerPool
    /** The allocations of a scaled-up and of an ordinary pool. */
    const surge: Staffing.Call
    const base: Staffing.Call
    var currentEma: real
    var emaInitialized: bool
    var isScaledUp: bool
    var lastScaleUpTime: Option<real>
    var lastScaleDownTime: Option<real>
    var totalScaleUps: nat
    var totalScaleDowns: nat

    function State(): Scaler
      reads this
    {
      Scaler(currentEma, emaInitialized, isScaledUp, lastScaleUpTime, lastScaleDownTime, totalScaleUps, totalScaleDowns)
    }

    constructor (config: Config, pool: WorkerPools.WorkerPool, surge: Staffing.Call, base: Staffing.Call)
      ensures this.config == config && State() == NEW_SCALER
      ensures this.pool == pool && this.surge == surge && this.base == base
    {
      this.config, this.pool, this.surge, this.base := config, pool, surge, base;
      currentEma, emaInitialized, isScaledUp := 0.0, false, false;
      lastScaleUpTime, lastScaleDownTime := None, None;
      totalScaleUps, totalScaleDowns := 0, 0;
    }

    method ComputeEma(depth: real) returns (ema: real)
      modifies this
      ensures State() == UpdateEma(config, old(State()), depth) && ema == Reading(State())
    {
      var v := if depth < 0.0 then 0.0 else depth;
      if !emaInitialized {
        currentEma := v;
        emaInitialized := true;
      } else {
        currentEma := Blend(config.alpha, v, currentEma);
      }
      ema := Round(currentEma, 10000.0);
    }

    /** Reallocates the pool where the decision changes, and then records it. */
    method ActOn(ema: real, now: real) returns (resize: Option<bool>)
      requires pool.Valid()
      modifies `isScaledUp, `lastScaleUpTime, `lastScaleDownTime, `totalScaleUps, `totalScaleDowns
      modifies pool, pool.Everyone()
      ensures State() == DecideOn(config, old(State()), ema, now) && pool.Valid()
      ensures resize == Some(true) <==> totalScaleUps == old(totalScaleUps) + 1
      ensures resize == Some(false) <==> totalScaleDowns == old(totalScaleDowns) + 1
      ensures pool.State() == Resized(resize, old(pool.State()))
    {
      resize := None;
      if ema >= config.slaThreshold {
        if !isScaledUp {
          pool.SetAllocation(surge, map[], map[]);
          isScaledUp, lastScaleUpTime, totalScaleUps := true, Some(now), totalScaleUps + 1;
          resize := Some(true);
        }
      } else if isScaledUp {
        var since := now - if lastScaleUpTime.Some? then lastScaleUpTime.value else 0.0;
        if since >= config.cooldownSec {
          pool.SetAllocation(base, map[], map[]);
          isScaledUp, lastScaleDownTime, totalScaleDowns := false, Some(now), totalScaleDowns + 1;
          resize := Some(false);
        }
      }
    }

    /** The pool after a decision: surged, back to its base, or as it was. */
    ghost function Resized(resize: Option<bool>, r: Staffing.Roster): Staffing.Roster {
      if resize == None then r else Staffing.Apply(r, if resize.value then surge else base)
    }

    /** One evaluation. `resize` says which way the worker pool was told to go, if it was. */
    method EvaluateScaling(now: real, depth: real) returns (resize: Option<bool>)
      requires pool.Valid()
      modifies this, pool, pool.Everyone()
      ensures State() == Evaluate(config, old(State()), Sample(now, depth)) && pool.Valid()
      ensures isScaledUp <==> Round(currentEma, 10000.0) >= config.slaThreshold
                              || (old(isScaledUp) && now - UpSince(old(State())) < config.cooldownSec)
      ensures resize == if old(isScaledUp) == isScaledUp then None else Some(isScaledUp)
      ensures resize == Some(true) ==>
        lastScaleUpTime == Some(now) && pool.State() == Staffing.Apply(old(pool.State()), surge)
      ensures resize == Some(false) ==>
        lastScaleDownTime == Some(now) && pool.State() == Staffing.Apply(old(pool.State()), base)
      ensures resize == None ==> pool.State() == old(pool.State())
      ensures resize == Some(true) <==> totalScaleUps == old(totalScaleUps) + 1
      ensures resize == Some(false) <==> totalScaleDowns == old(totalScaleDowns) + 1
    {
      ScalesExactlyWhen(config, State(), Sample(now, depth));
      var ema := ComputeEma(depth);
      resize := ActOn(ema, now);
    }
  }
}
