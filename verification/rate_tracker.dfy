/** The ingress rate tracker, proved against `Telemetry`. */
module RateTracking {
  import opened Contracts
  import opened Rounding
  import opened Telemetry
  import opened TelemetryTracking

  function Mark(t: real, count: nat): Sample {
    Sample(t, count, 0.0, None)
  }

  class RateTracker {
    const windowSec: real
    var count: nat
    var totalCount: nat
    var samples: seq<Sample>
    /** Every mark and query since the last reset. */
    ghost var ops: seq<Op>

    ghost predicate Valid()
      reads this
    {
      samples == Window(ops, windowSec) && totalCount == CountOf(History(ops)) && count == totalCount
    }

    constructor (windowSec: real)
      ensures Valid() && ops == [] && this.windowSec == windowSec
    {
      this.windowSec := windowSec;
      count, totalCount, samples, ops := 0, 0, [], [];
    }

    method Reset()
      modifies this
      ensures Valid() && ops == []
    {
      count, totalCount, samples, ops := 0, 0, [], [];
    }

    method Prune(now: real)
      modifies `samples
      ensures samples == DropOld(old(samples), now - windowSec)
    {
      while |samples| > 0 && samples[0].t < now - windowSec
        invariant DropOld(samples, now - windowSec) == DropOld(old(samples), now - windowSec)
        decreases |samples|
      {
        samples := samples[1..];
      }
    }

    method Note(s: Sample)
      requires Valid()
      modifies this
      ensures Valid() && ops == old(ops) + [Add(s)]
    {
      assert (ops + [Add(s)])[..|ops|] == ops && (History(ops) + [s])[..|History(ops)|] == History(ops);
      count := count + s.count;
      totalCount := totalCount + s.count;
      samples := samples + [s];
      Prune(s.t);
      ops := ops + [Add(s)];
    }

    /** The window is pruned again by the reading of the rate, at the same instant. */
    method MarkEvents(n: nat, now: real) returns (rate: real)
      requires Valid()
      modifies this
      ensures Valid() && ops == old(ops) + [Add(Mark(now, n)), Query(now)]
      ensures rate == RateOf(samples, now, windowSec)
    {
      Note(Mark(now, n));
      assert ops + [Query(now)] == old(ops) + [Add(Mark(now, n)), Query(now)];
      rate := GetRate(now);
    }

    method GetRate(now: real) returns (rate: real)
      requires Valid()
      modifies this
      ensures Valid() && ops == old(ops) + [Query(now)] && totalCount == old(totalCount)
      ensures rate == RateOf(samples, now, windowSec)
    {
      assert (ops + [Query(now)])[..|ops|] == ops;
      Prune(now);
      ops := ops + [Query(now)];
      if |samples| == 0 {
        return 0.0;
      }
      var total := Counted(samples);
      rate := Round(total as real / Span(now - samples[0].t, windowSec), 100.0);
    }
  }

  /** The span a rate is taken over: the window, what has elapsed of it, at least a second. */
  function Span(elapsed: real, width: real): (r: real)
    ensures r >= 1.0
    ensures r > 1.0 ==> r <= elapsed && r <= width && (r == elapsed || r == width)
    ensures elapsed > 1.0 && width > 1.0 ==> r > 1.0
  {
    var w := if elapsed < width then elapsed else width;
    if w < 1.0 then 1.0 else w
  }

  function RateOf(window: seq<Sample>, now: real, width: real): real {
    if window == [] then 0.0 else Round(CountOf(window) as real / Span(now - window[0].t, width), 100.0)
  }

  lemma OverSpan(n: real, span: real)
    requires 0.0 <= n && 1.0 <= span
    ensures 0.0 <= n / span <= n
  {
    var q := n / span;
    assert q * span == n;
    if q < 0.0 {
      MulMonotone(q, 0.0, span);
    }
    MulNonneg(q, span - 1.0);
  }

  /** When time does not run backwards, the rate reported is that of the events marked in the
      last `width` seconds over the time since the first of them, taken as no less than one
      second and no more than the width; so it is between zero and their number. */
  lemma RateIsOverRecentMarks(ops: seq<Op>, width: real, now: real)
    requires ops != [] && InOrder(ops) && 0.0 <= width && TimeOf(ops[|ops| - 1]) == now
    ensures var recent, rate := Since(History(ops), now - width), RateOf(Window(ops, width), now, width);
      && 0.0 <= rate <= CountOf(recent) as real
      && (recent == [] ==> rate == 0.0)
      && (recent != [] ==>
            var elapsed := now - recent[0].t;
            var span := if elapsed < width then elapsed else width;
            rate == Round(CountOf(recent) as real / (if span < 1.0 then 1.0 else span), 100.0))
  {
    var window := Window(ops, width);
    assert window == Since(History(ops), now - width) by {
      WindowIsRecentHistory(ops, width);
    }
    if window != [] {
      RateInRange(CountOf(window), Span(now - window[0].t, width));
    }
  }

  lemma RateInRange(n: nat, span: real)
    requires 1.0 <= span
    ensures 0.0 <= Round(n as real / span, 100.0) <= n as real
  {
    OverSpan(n as real, span);
    RoundMonotone(0.0, n as real / span, 100.0);
    RoundMonotone(n as real / span, n as real, 100.0);
    RoundWhole(n);
    RoundWhole(0);
  }

  lemma RoundWhole(n: nat)
    ensures Round(n as real, 100.0) == n as real
  {
    assert n as real * 100.0 == (n * 100) as real;
    assert RoundInt((n * 100) as real) == n * 100;
  }
}
