/** The dynamic workload profile: a baseline rate, spikes that end by time or by count, and
    the return to baseline. */
module Workload {
  import opened Contracts

  datatype Mode = Steady | Preset | CustomRate | CustomCount

  /** `start` and `duration` time a spike; `target` and `spiked` count a custom run. */
  datatype Profile = Profile(rate: real, mode: Mode, start: real, duration: Option<real>, target: int, spiked: int)

  datatype Limits = Limits(baseline: real, maxCustom: real)

  predicate Sane(l: Limits) {
    0.0 <= l.baseline && 0.0 < l.maxCustom
  }

  function Recovered(l: Limits): Profile {
    Profile(l.baseline, Steady, 0.0, None, 0, 0)
  }

  datatype Command =
    | SetPreset(multiplier: real, forSec: Option<real>, at: real)
    | SetRate(rate: real, lasting: real, at: real)
    | SetCount(total: int, maxRate: real, at: real)
    | Delivered(count: int)
    | Read(at: real)
    | Recover

  function Least(a: real, b: real): real {
    if a < b then a else b
  }

  /** Where the source raises ValueError. */
  predicate Refused(l: Limits, c: Command) {
    match c
    case SetPreset(m, d, _) => m <= 0.0 || (d.Some? && d.value <= 0.0)
    case SetRate(r, d, _) => r <= 0.0 || r > l.maxCustom || d <= 0.0
    case SetCount(n, r, _) => n <= 0 || r <= 0.0 || r > l.maxCustom
    case _ => false
  }

  function Do(l: Limits, p: Profile, c: Command): Profile {
    if Refused(l, c) then p
    else
      match c
      case SetPreset(m, d, t) =>
        if m == 1.0 then Recovered(l) else Profile(Least(l.baseline * m, l.maxCustom), Preset, t, d, 0, 0)
      case SetRate(r, d, t) => Profile(r, CustomRate, t, Some(d), 0, 0)
      case SetCount(n, r, t) => Profile(r, CustomCount, t, None, n, 0)
      case Delivered(n) =>
        if p.mode != CustomCount then p
        else if p.spiked + n >= p.target then Recovered(l) else p.(spiked := p.spiked + n)
      case Read(t) => if p.duration.Some? && t - p.start >= p.duration.value then Recovered(l) else p
      case Recover => Recovered(l)
  }

  function Run(l: Limits, p: Profile, cs: seq<Command>): Profile {
    if cs == [] then p else Do(l, Run(l, p, cs[..|cs| - 1]), cs[|cs| - 1])
  }

  // ---- The rate ----

  predicate Sound(l: Limits, p: Profile) {
    && (p.mode == Steady ==> p == Recovered(l))
    && (p.mode == CustomCount ==> p.spiked < p.target && p.duration == None)
    && (p.mode == CustomRate ==> p.duration.Some?)
    && (p.duration.Some? ==> p.duration.value > 0.0)
    && (p.mode != Steady ==> p.rate <= l.maxCustom)
    && 0.0 <= p.rate && (0.0 < l.baseline ==> 0.0 < p.rate)
  }

  lemma ScaledPositive(b: real, m: real)
    requires 0.0 <= b && 0.0 < m
    ensures 0.0 <= b * m && (0.0 < b ==> 0.0 < b * m)
  {
  }

  lemma StepKeepsSound(l: Limits, p: Profile, c: Command)
    requires Sane(l) && Sound(l, p)
    ensures Sound(l, Do(l, p, c))
  {
    if c.SetPreset? && c.multiplier > 0.0 {
      ScaledPositive(l.baseline, c.multiplier);
    }
  }

  /** In every reachable state a spike stays within the configured maximum, a steady profile
      is exactly at its baseline, and the rate is zero only if the baseline is. */
  lemma {:induction false} RatesStayInRange(l: Limits, cs: seq<Command>)
    requires Sane(l)
    ensures Sound(l, Run(l, Recovered(l), cs))
  {
    if cs != [] {
      RatesStayInRange(l, cs[..|cs| - 1]);
      StepKeepsSound(l, Run(l, Recovered(l), cs[..|cs| - 1]), cs[|cs| - 1]);
    }
  }

  // ---- When a spike ends ----

  function Total(cs: seq<Command>): int {
    if cs == [] then 0 else Total(cs[..|cs| - 1]) + if cs[|cs| - 1].Delivered? then cs[|cs| - 1].count else 0
  }

  predicate Passive(cs: seq<Command>) {
    forall i :: 0 <= i < |cs| ==> cs[i].Read? || (cs[i].Delivered? && cs[i].count >= 0)
  }

  /** A custom run lasts exactly until its events are delivered: it is on, at its own rate,
      if and only if fewer than the requested number have been, however often it is read. */
  lemma {:induction false} CountedSpikeIsExact(l: Limits, p: Profile, n: int, r: real, t: real, cs: seq<Command>)
    requires !Refused(l, SetCount(n, r, t)) && Passive(cs)
    ensures Run(l, Do(l, p, SetCount(n, r, t)), cs) ==
      if Total(cs) < n then Profile(r, CustomCount, t, None, n, Total(cs)) else Recovered(l)
    ensures Total(cs) >= 0
  {
    if cs != [] {
      var k := |cs| - 1;
      CountedSpikeIsExact(l, p, n, r, t, cs[..k]);
      assert cs[k].Read? || (cs[k].Delivered? && cs[k].count >= 0);
    }
  }

  /** The latest reading among passive commands reached the end of the spike. */
  ghost predicate ReadAfter(cs: seq<Command>, deadline: real) {
    exists i :: 0 <= i < |cs| && cs[i].Read? && cs[i].at >= deadline
  }

  lemma ReadAfterSnoc(cs: seq<Command>, deadline: real)
    requires cs != []
    ensures var last := cs[|cs| - 1];
      ReadAfter(cs, deadline) <==> ReadAfter(cs[..|cs| - 1], deadline) || (last.Read? && last.at >= deadline)
  {
    var n := |cs| - 1;
    if ReadAfter(cs[..n], deadline) {
      var i :| 0 <= i < n && cs[..n][i].Read? && cs[..n][i].at >= deadline;
      assert cs[i].Read? && cs[i].at >= deadline;
    }
    if ReadAfter(cs, deadline) {
      var i :| 0 <= i < |cs| && cs[i].Read? && cs[i].at >= deadline;
      if i < n {
        assert cs[..n][i].Read? && cs[..n][i].at >= deadline;
      }
    }
  }

  /** A timed spike is over exactly once the rate has been read at or after its deadline: the
      return to baseline is lazy, and deliveries do not end it. */
  lemma {:induction false} TimedSpikeEndsWhenRead(l: Limits, p: Profile, r: real, d: real, t: real, cs: seq<Command>)
    requires !Refused(l, SetRate(r, d, t)) && Passive(cs)
    ensures Run(l, Do(l, p, SetRate(r, d, t)), cs) ==
      if ReadAfter(cs, t + d) then Recovered(l) else Profile(r, CustomRate, t, Some(d), 0, 0)
  {
    if cs != [] {
      var k := |cs| - 1;
      TimedSpikeEndsWhenRead(l, p, r, d, t, cs[..k]);
      ReadAfterSnoc(cs, t + d);
      assert cs[k].Read? || (cs[k].Delivered? && cs[k].count >= 0);
    }
  }

  /** A preset spike runs at its multiple of the baseline, or at the maximum if that is less, and
      is over exactly once the rate has been read at or after its deadline, if it has one. */
  lemma {:induction false} PresetSpikeEndsWhenRead(l: Limits, p: Profile, m: real, d: Option<real>, t: real,
                                                   cs: seq<Command>)
    requires !Refused(l, SetPreset(m, d, t)) && m != 1.0 && Passive(cs)
    ensures var r := Run(l, Do(l, p, SetPreset(m, d, t)), cs);
      if d.Some? && ReadAfter(cs, t + d.value) then r == Recovered(l)
      else
        && r.mode == Preset && r.rate <= l.maxCustom && r.rate <= l.baseline * m
        && (r.rate == l.maxCustom || r.rate == l.baseline * m)
        && r == Profile(r.rate, Preset, t, d, 0, 0)
  {
    if cs != [] {
      var k := |cs| - 1;
      PresetSpikeEndsWhenRead(l, p, m, d, t, cs[..k]);
      if d.Some? {
        ReadAfterSnoc(cs, t + d.value);
      }
      assert cs[k].Read? || (cs[k].Delivered? && cs[k].count >= 0);
    }
  }

  /** A command is refused if and only if one of its numbers is not positive or its rate is over
      the maximum; a refused one changes nothing, a preset of one is a recovery, and any other
      spike takes the place of whatever was going on. */
  lemma CommandsTakeEffectIff(l: Limits, p: Profile, q: Profile, c: Command)
    ensures Refused(l, c) <==>
      || (c.SetPreset? && (c.multiplier <= 0.0 || (c.forSec.Some? && c.forSec.value <= 0.0)))
      || (c.SetRate? && (c.rate <= 0.0 || c.rate > l.maxCustom || c.lasting <= 0.0))
      || (c.SetCount? && (c.total <= 0 || c.maxRate <= 0.0 || c.maxRate > l.maxCustom))
    ensures Refused(l, c) ==> Do(l, p, c) == p
    ensures !Refused(l, c) && c.SetPreset? && c.multiplier == 1.0 ==> Do(l, p, c) == Do(l, p, Recover)
    ensures !Refused(l, c) && (c.SetPreset? || c.SetRate? || c.SetCount? || c.Recover?) ==> Do(l, p, c) == Do(l, q, c)
    ensures Do(l, p, Recover) == Profile(l.baseline, Steady, 0.0, None, 0, 0)
  {
  }

  // ---- The object ----

  class DynamicWorkloadProfile {
    const limits: Limits
    var currentTargetRate: real
    var spikeMode: Mode
    var spikeStart: real
    var spikeDuration: Option<real>
    var eventsTarget: int
    var eventsSpiked: int

    function State(): Profile
      reads this
    {
      Profile(currentTargetRate, spikeMode, spikeStart, spikeDuration, eventsTarget, eventsSpiked)
    }

    constructor (baseline: real, maxCustom: real)
      requires Sane(Limits(baseline, maxCustom))
      ensures limits == Limits(baseline, maxCustom) && State() == Recovered(limits) && Sound(limits, State())
    {
      limits := Limits(baseline, maxCustom);
      currentTargetRate, spikeMode, spikeStart, spikeDuration := baseline, Steady, 0.0, None;
      eventsTarget, eventsSpiked := 0, 0;
    }

    method RecoverToBaseline()
      modifies this
      ensures State() == Recovered(limits)
    {
      currentTargetRate, spikeMode, spikeStart, spikeDuration := limits.baseline, Steady, 0.0, None;
      eventsTarget, eventsSpiked := 0, 0;
    }

    method TargetRate(now: real) returns (rate: real)
      modifies this
      ensures State() == Do(limits, old(State()), Read(now)) && rate == currentTargetRate
    {
      if spikeDuration.Some? && now - spikeStart >= spikeDuration.value {
        RecoverToBaseline();
      }
      return currentTargetRate;
    }

    /** `ok` is false where the source raises ValueError. */
    method SetPresetSpike(multiplier: real, forSec: Option<real>, now: real) returns (ok: bool)
      modifies this
      ensures State() == Do(limits, old(State()), SetPreset(multiplier, forSec, now))
      ensures ok == !Refused(limits, SetPreset(multiplier, forSec, now))
    {
      if multiplier <= 0.0 || (forSec.Some? && forSec.value <= 0.0) {
        return false;
      }
      if multiplier == 1.0 {
        RecoverToBaseline();
        return true;
      }
      currentTargetRate := Least(limits.baseline * multiplier, limits.maxCustom);
      spikeMode, spikeStart, spikeDuration := Preset, now, forSec;
      eventsTarget, eventsSpiked := 0, 0;
      return true;
    }

    method SetCustomSpike(rate: real, forSec: real, now: real) returns (ok: bool)
      modifies this
      ensures State() == Do(limits, old(State()), SetRate(rate, forSec, now))
      ensures ok == !Refused(limits, SetRate(rate, forSec, now))
    {
      if rate <= 0.0 || rate > limits.maxCustom || forSec <= 0.0 {
        return false;
      }
      currentTargetRate, spikeMode, spikeStart, spikeDuration := rate, CustomRate, now, Some(forSec);
      eventsTarget, eventsSpiked := 0, 0;
      return true;
    }

    method SetCustomEventRun(total: int, maxRate: real, now: real) returns (ok: bool)
      modifies this
      ensures State() == Do(limits, old(State()), SetCount(total, maxRate, now))
      ensures ok == !Refused(limits, SetCount(total, maxRate, now))
    {
      if total <= 0 || maxRate <= 0.0 || maxRate > limits.maxCustom {
        return false;
      }
      currentTargetRate, spikeMode, spikeStart, spikeDuration := maxRate, CustomCount, now, None;
      eventsTarget, eventsSpiked := total, 0;
      return true;
    }

    method RecordEventsDelivered(count: int)
      modifies this
      ensures State() == Do(limits, old(State()), Delivered(count))
    {
      if spikeMode == CustomCount {
        eventsSpiked := eventsSpiked + count;
        if eventsSpiked >= eventsTarget {
          RecoverToBaseline();
        }
      }
    }
  }
}
