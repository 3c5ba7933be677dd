/** The processing telemetry tracker, proved against `Telemetry`. */
module TelemetryTracking {
  import opened Contracts
  import opened Latency
  import opened Rounding
  import opened Telemetry

  function Positive(latency: real): (r: real)
    ensures 0.0 <= r && (r == latency || (r == 0.0 && latency < 0.0))
  {
    if latency < 0.0 then 0.0 else latency
  }

  /** A recorded batch's total is that of numbers between the batch's own extremes, which is
      what `Telemetry.AverageWithin` asks of a sample. */
  lemma {:induction false} SumWithin(s: seq<real>, lo: real, hi: real)
    requires forall i :: 0 <= i < |s| ==> lo <= s[i] <= hi
    ensures TotalIn(|s|, Sum(s), lo, hi)
  {
    if s != [] {
      var n := |s| - 1;
      SumWithin(s[..n], lo, hi);
      assert TotalIn(1, s[n], lo, hi);
      TotalInAdds(n, Sum(s[..n]), 1, s[n], lo, hi);
    }
  }

  function Clean(latencies: seq<real>): seq<real> {
    seq(|latencies|, i requires 0 <= i < |latencies| => Positive(latencies[i]))
  }

  /** Negative latencies count as zero, the others as they are. */
  lemma CleanIsFloored(latencies: seq<real>, i: nat)
    ensures |Clean(latencies)| == |latencies|
    ensures i < |latencies| ==> Clean(latencies)[i] == if latencies[i] < 0.0 then 0.0 else latencies[i]
  {
  }

  /** Each lane's deque is the last `n` of that lane's latencies. */
  ghost predicate LanesRecent(lanes: map<Priority, seq<real>>, history: map<Priority, seq<real>>, n: nat) {
    forall p: Priority :: p in lanes && p in history && lanes[p] == LastN(history[p], n)
  }

  function ExtendLane(lanes: map<Priority, seq<real>>, lane: Option<Priority>, xs: seq<real>, n: nat)
    : map<Priority, seq<real>>
  {
    if lane.Some? && lane.value in lanes then lanes[lane.value := ExtendBounded(lanes[lane.value], xs, n)] else lanes
  }

  ghost function Extended(history: map<Priority, seq<real>>, lane: Option<Priority>, xs: seq<real>)
    : map<Priority, seq<real>>
  {
    if lane.Some? && lane.value in history then history[lane.value := history[lane.value] + xs] else history
  }

  /** A recording adds to the history of its own lane and to no other. */
  lemma ExtendsItsLane(history: map<Priority, seq<real>>, lane: Option<Priority>, xs: seq<real>, p: Priority)
    requires p in history
    ensures p in Extended(history, lane, xs)
    ensures Extended(history, lane, xs)[p] == if lane == Some(p) then history[p] + xs else history[p]
  {
  }

  lemma LanesStayRecent(lanes: map<Priority, seq<real>>, history: map<Priority, seq<real>>, lane: Option<Priority>,
                        xs: seq<real>, n: nat)
    requires LanesRecent(lanes, history, n)
    ensures LanesRecent(ExtendLane(lanes, lane, xs, n), Extended(history, lane, xs), n)
  {
    if lane.Some? {
      ExtendKeepsLastN(history[lane.value], xs, n);
    }
  }

  // ---- The latencies behind the samples ----

  lemma OneLatency(x: real)
    ensures Sum([x]) == x
  {
    assert [x][..0] == [];
  }

  predicate AllIn(xs: seq<real>, lo: real, hi: real) {
    forall i :: 0 <= i < |xs| ==> lo <= xs[i] <= hi
  }

  /** Each sample sums up the latencies recorded with it. */
  predicate Backs(s: Sample, xs: seq<real>) {
    s.count == |xs| > 0 && s.total == Sum(xs)
  }

  ghost predicate Backed(h: seq<Sample>, recorded: seq<seq<real>>) {
    |h| == |recorded| && forall i :: 0 <= i < |h| ==> Backs(h[i], recorded[i])
  }

  function Flat(recorded: seq<seq<real>>): seq<real> {
    if recorded == [] then [] else Flat(recorded[..|recorded| - 1]) + recorded[|recorded| - 1]
  }

  lemma BackedSnoc(ops: seq<Op>, s: Sample, recorded: seq<seq<real>>, xs: seq<real>)
    requires Backed(History(ops), recorded) && Backs(s, xs)
    ensures Backed(History(ops + [Add(s)]), recorded + [xs]) && Flat(recorded + [xs]) == Flat(recorded) + xs
  {
    UnfoldLast(ops + [Add(s)], 0.0);
    assert (ops + [Add(s)])[..|ops|] == ops && (recorded + [xs])[..|recorded|] == recorded;
  }

  lemma BackedQuery(ops: seq<Op>, now: real, recorded: seq<seq<real>>)
    requires Backed(History(ops), recorded)
    ensures Backed(History(ops + [Query(now)]), recorded)
  {
    UnfoldLast(ops + [Query(now)], 0.0);
    assert (ops + [Query(now)])[..|ops|] == ops;
  }

  function View(h: seq<Sample>, lane: Option<Priority>): seq<Sample> {
    if lane == None then h else OfLane(h, lane.value)
  }

  /** Every latency behind the samples in view lies between `lo` and `hi`. */
  ghost predicate Between(h: seq<Sample>, recorded: seq<seq<real>>, lane: Option<Priority>, lo: real, hi: real)
    requires |h| == |recorded|
  {
    forall i :: 0 <= i < |h| && (lane == None || h[i].lane == lane) ==> AllIn(recorded[i], lo, hi)
  }

  lemma {:induction false} OfLaneMembers(h: seq<Sample>, p: Priority)
    ensures forall s :: s in OfLane(h, p) ==> s in h && s.lane == Some(p)
  {
    if h != [] {
      OfLaneMembers(h[..|h| - 1], p);
      assert forall s :: s in h[..|h| - 1] ==> s in h;
    }
  }

  lemma ViewIsWithin(h: seq<Sample>, recorded: seq<seq<real>>, lane: Option<Priority>, lo: real, hi: real)
    requires Backed(h, recorded) && Between(h, recorded, lane, lo, hi)
    ensures forall i :: 0 <= i < |View(h, lane)| ==> Within(View(h, lane)[i], lo, hi) && View(h, lane)[i].count > 0
  {
    if lane.Some? {
      OfLaneMembers(h, lane.value);
    }
    forall i | 0 <= i < |View(h, lane)|
      ensures Within(View(h, lane)[i], lo, hi) && View(h, lane)[i].count > 0
    {
      var s := View(h, lane)[i];
      assert s in View(h, lane) && s in h;
      var j :| 0 <= j < |h| && h[j] == s;
      assert Backs(h[j], recorded[j]);
      SumWithin(recorded[j], lo, hi);
    }
  }

  /** The latencies behind the samples in view, all in a row. */
  function Seen(h: seq<Sample>, recorded: seq<seq<real>>, lane: Option<Priority>): seq<real>
    requires |h| == |recorded|
  {
    if h == [] then []
    else
      var n := |h| - 1;
      Seen(h[..n], recorded[..n], lane) + if lane == None || h[n].lane == lane then recorded[n] else []
  }

  lemma TotalsSnoc(q: seq<Sample>, s: Sample)
    ensures CountOf(q + [s]) == CountOf(q) + s.count && TotalOf(q + [s]) == TotalOf(q) + s.total
  {
    assert (q + [s])[..|q|] == q;
  }

  lemma ViewSnoc(h: seq<Sample>, s: Sample, lane: Option<Priority>)
    ensures View(h + [s], lane) == if lane == None || s.lane == lane then View(h, lane) + [s] else View(h, lane)
  {
    if lane.Some? {
      OfLaneSnoc(h, s, lane.value);
    }
  }

  lemma {:induction false} SeenIsInView(h: seq<Sample>, recorded: seq<seq<real>>, lane: Option<Priority>)
    requires Backed(h, recorded)
    ensures CountOf(View(h, lane)) == |Seen(h, recorded, lane)| && TotalOf(View(h, lane)) == Sum(Seen(h, recorded, lane))
    ensures View(h, lane) == [] <==> Seen(h, recorded, lane) == []
  {
    if h != [] {
      var n := |h| - 1;
      SeenIsInView(h[..n], recorded[..n], lane);
      assert h == h[..n] + [h[n]] && Backs(h[n], recorded[n]);
      ViewSnoc(h[..n], h[n], lane);
      TotalsSnoc(View(h[..n], lane), h[n]);
      SumOfParts(Seen(h[..n], recorded[..n], lane), recorded[n]);
      assert Seen(h[..n], recorded[..n], lane) + [] == Seen(h[..n], recorded[..n], lane);
    }
  }

  /** The reported average is the mean of the latencies recorded in the window, or of the recent
      ones if there are none, rounded to two decimals. */
  lemma AverageIsMean(h: seq<Sample>, recorded: seq<seq<real>>, lane: Option<Priority>, recent: seq<real>)
    requires Backed(h, recorded)
    ensures var seen := Seen(h, recorded, lane);
      var all := if seen != [] then seen else recent;
      AverageOr(View(h, lane), recent) == if all == [] then 0.0 else Round(Sum(all) / |all| as real, 100.0)
  {
    SeenIsInView(h, recorded, lane);
  }

  lemma {:induction false} SomethingCounted(q: seq<Sample>)
    requires q != [] && forall i :: 0 <= i < |q| ==> q[i].count > 0
    ensures CountOf(q) > 0
  {
    assert q[|q| - 1].count > 0;
  }

  /** Bounds on what is averaged: the latencies in view, or the recent ones if there are none. */
  ghost predicate Bounds(h: seq<Sample>, recorded: seq<seq<real>>, lane: Option<Priority>, recent: seq<real>,
                         lo: real, hi: real)
    requires |h| == |recorded|
  {
    if View(h, lane) != [] then Between(h, recorded, lane, lo, hi) else recent != [] && AllIn(recent, lo, hi)
  }

  /** The reported average lies between the least and the greatest of the latencies averaged. */
  lemma AverageIsBetween(h: seq<Sample>, recorded: seq<seq<real>>, lane: Option<Priority>, recent: seq<real>,
                         lo: real, hi: real)
    requires Backed(h, recorded) && Bounds(h, recorded, lane, recent, lo, hi)
    ensures Round(lo, 100.0) <= AverageOr(View(h, lane), recent) <= Round(hi, 100.0)
  {
    if View(h, lane) != [] {
      ViewIsWithin(h, recorded, lane, lo, hi);
      SomethingCounted(View(h, lane));
      AverageWithin(View(h, lane), lo, hi);
    } else {
      SumWithin(recent, lo, hi);
      MeanIn(|recent|, Sum(recent), lo, hi, 100.0);
    }
  }

  lemma AverageIsFair(h: seq<Sample>, recorded: seq<seq<real>>, lane: Option<Priority>, recent: seq<real>)
    requires Backed(h, recorded)
    ensures forall lo, hi :: Bounds(h, recorded, lane, recent, lo, hi) ==>
      Round(lo, 100.0) <= AverageOr(View(h, lane), recent) <= Round(hi, 100.0)
  {
    forall lo, hi | Bounds(h, recorded, lane, recent, lo, hi)
      ensures Round(lo, 100.0) <= AverageOr(View(h, lane), recent) <= Round(hi, 100.0)
    {
      AverageIsBetween(h, recorded, lane, recent, lo, hi);
    }
  }

  lemma BackedWindow(ops: seq<Op>, width: real, recorded: seq<seq<real>>)
    requires Backed(History(ops), recorded)
    ensures |Window(ops, width)| <= |recorded|
    ensures Backed(Window(ops, width), recorded[|recorded| - |Window(ops, width)|..])
  {
    WindowIsSuffix(ops, width);
  }

  class ProcessingTelemetryTracker {
    const windowSec: real
    const maxRecent: nat
    var totalProcessed: nat
    var windowSamples: seq<Sample>
    var recentLatencies: seq<real>
    var laneLatencies: map<Priority, seq<real>>
    /** History: every recording and query so far, and every latency ever recorded. */
    ghost var ops: seq<Op>
    ghost var latencies: seq<real>
    ghost var laneHistory: map<Priority, seq<real>>
    /** The latencies recorded with each sample ever taken. */
    ghost var recorded: seq<seq<real>>

    ghost predicate Valid()
      reads this
    {
      && windowSamples == Window(ops, windowSec)
      && recentLatencies == LastN(latencies, maxRecent)
      && totalProcessed == |latencies|
      && LanesRecent(laneLatencies, laneHistory, maxRecent)
      && Backed(History(ops), recorded) && latencies == Flat(recorded)
    }

    /** The latencies recorded with each sample in the window. */
    ghost function WindowRecorded(): (r: seq<seq<real>>)
      requires Valid()
      reads this
      ensures |r| == |windowSamples| && Backed(windowSamples, r)
    {
      BackedWindow(ops, windowSec, recorded);
      recorded[|recorded| - |windowSamples|..]
    }

    constructor (windowSec: real, maxRecent: nat)
      ensures Valid() && ops == [] && latencies == []
      ensures this.windowSec == windowSec && this.maxRecent == maxRecent
    {
      this.windowSec, this.maxRecent := windowSec, maxRecent;
      totalProcessed, windowSamples, recentLatencies := 0, [], [];
      laneLatencies := map[Critical := [], Normal := [], BestEffort := []];
      ops, latencies, recorded := [], [], [];
      laneHistory := map[Critical := [], Normal := [], BestEffort := []];
      new;
      forall p: Priority
        ensures p in laneLatencies && p in laneHistory && laneLatencies[p] == laneHistory[p] == []
      {
        match p
        case Critical =>
        case Normal =>
        case BestEffort =>
      }
    }

    method Prune(now: real)
      modifies `windowSamples
      ensures windowSamples == DropOld(old(windowSamples), now - windowSec)
    {
      var cutoff := now - windowSec;
      while |windowSamples| > 0 && windowSamples[0].t < cutoff
        invariant DropOld(windowSamples, cutoff) == DropOld(old(windowSamples), cutoff)
        decreases |windowSamples|
      {
        windowSamples := windowSamples[1..];
      }
    }

    /** Adds latencies to the bounded lists, overall and of their lane. */
    method Remember(xs: seq<real>, lane: Option<Priority>)
      requires recentLatencies == LastN(latencies, maxRecent) && LanesRecent(laneLatencies, laneHistory, maxRecent)
      modifies `recentLatencies, `laneLatencies, `latencies, `laneHistory
      ensures recentLatencies == LastN(latencies, maxRecent) && LanesRecent(laneLatencies, laneHistory, maxRecent)
      ensures latencies == old(latencies) + xs && laneHistory == Extended(old(laneHistory), lane, xs)
    {
      ExtendKeepsLastN(latencies, xs, maxRecent);
      LanesStayRecent(laneLatencies, laneHistory, lane, xs, maxRecent);
      recentLatencies := ExtendBounded(recentLatencies, xs, maxRecent);
      laneLatencies := ExtendLane(laneLatencies, lane, xs, maxRecent);
      latencies := latencies + xs;
      laneHistory := Extended(laneHistory, lane, xs);
    }

    /** Appends a sample, which sums up `xs`, and prunes. */
    method AddToWindow(s: Sample, ghost xs: seq<real>)
      requires windowSamples == Window(ops, windowSec) && Backed(History(ops), recorded) && Backs(s, xs)
      modifies `windowSamples, `ops, `recorded
      ensures windowSamples == Window(ops, windowSec) && Backed(History(ops), recorded)
      ensures ops == old(ops) + [Add(s)] && recorded == old(recorded) + [xs]
      ensures Flat(recorded) == Flat(old(recorded)) + xs
    {
      windowSamples := windowSamples + [s];
      Prune(s.t);
      BackedSnoc(ops, s, recorded, xs);
      assert (ops + [Add(s)])[..|ops|] == ops;
      ops := ops + [Add(s)];
      recorded := recorded + [xs];
    }

    method RecordBatch(batch: seq<real>, lane: Option<Priority>, now: real)
      requires Valid()
      modifies this
      ensures Valid()
      ensures batch == [] ==> ops == old(ops) && latencies == old(latencies) && laneHistory == old(laneHistory)
      ensures batch != [] ==> latencies == old(latencies) + Clean(batch)
      ensures batch != [] ==> laneHistory == Extended(old(laneHistory), lane, Clean(batch))
      ensures batch != [] ==> ops == old(ops) + [Add(Sample(now, |batch|, Sum(Clean(batch)), lane))]
      ensures recorded == if batch == [] then old(recorded) else old(recorded) + [Clean(batch)]
    {
      if |batch| == 0 {
        return;
      }
      totalProcessed := totalProcessed + |batch|;
      AddToWindow(Sample(now, |batch|, Sum(Clean(batch)), lane), Clean(batch));
      Remember(Clean(batch), lane);
    }

    method Record(latency: real, lane: Option<Priority>, now: real)
      requires Valid()
      modifies this
      ensures Valid() && latencies == old(latencies) + [Positive(latency)]
      ensures laneHistory == Extended(old(laneHistory), lane, [Positive(latency)])
      ensures ops == old(ops) + [Add(Sample(now, 1, Positive(latency), lane))]
      ensures recorded == old(recorded) + [[Positive(latency)]]
    {
      totalProcessed := totalProcessed + 1;
      OneLatency(Positive(latency));
      AddToWindow(Sample(now, 1, Positive(latency), lane), [Positive(latency)]);
      Remember([Positive(latency)], lane);
    }

    /** The prune that a query starts with. */
    method PruneAt(now: real)
      requires Valid()
      modifies `windowSamples, `ops
      ensures Valid() && ops == old(ops) + [Query(now)]
    {
      Prune(now);
      BackedQuery(ops, now, recorded);
      assert (ops + [Query(now)])[..|ops|] == ops;
      ops := ops + [Query(now)];
    }

    /** Events per second over the window, never over less than one second. */
    method GetProcessingRate(now: real) returns (rate: real)
      requires Valid()
      modifies this
      ensures Valid() && ops == old(ops) + [Query(now)] && latencies == old(latencies)
      ensures windowSamples == [] ==> rate == 0.0
      ensures windowSamples != [] ==>
        var elapsed := now - windowSamples[0].t;
        var span := if elapsed < windowSec then elapsed else windowSec;
        rate == Round(CountOf(windowSamples) as real / (if span < 1.0 then 1.0 else span), 100.0)
    {
      PruneAt(now);
      if |windowSamples| == 0 {
        return 0.0;
      }
      var count := Counted(windowSamples);
      var elapsed := now - windowSamples[0].t;
      var span := if elapsed < windowSec then elapsed else windowSec;
      rate := Round(count as real / (if span < 1.0 then 1.0 else span), 100.0);
    }

    function RecentOf(lane: Option<Priority>): seq<real>
      reads this
    {
      if lane == None then recentLatencies else if lane.value in laneLatencies then laneLatencies[lane.value] else []
    }

    /** The average over the window, or over the recent latencies when the window is empty;
        of one lane if one is named. It lies between any bounds on the latencies averaged. */
    method GetAvgLatencyMs(lane: Option<Priority>, now: real) returns (avg: real)
      requires Valid()
      modifies `windowSamples, `ops
      ensures Valid() && ops == old(ops) + [Query(now)]
      ensures var seen := Seen(windowSamples, WindowRecorded(), lane);
        var all := if seen != [] then seen else RecentOf(lane);
        avg == if all == [] then 0.0 else Round(Sum(all) / |all| as real, 100.0)
      ensures forall lo, hi :: Bounds(windowSamples, WindowRecorded(), lane, RecentOf(lane), lo, hi) ==>
        Round(lo, 100.0) <= avg <= Round(hi, 100.0)
    {
      PruneAt(now);
      avg := Averaged(View(windowSamples, lane), RecentOf(lane));
      AverageIsMean(windowSamples, WindowRecorded(), lane, RecentOf(lane));
      AverageIsFair(windowSamples, WindowRecorded(), lane, RecentOf(lane));
    }

    /** Nearest rank from below: the 95th and 99th percentiles of the recent latencies. */
    method GetPercentiles() returns (p95: real, p99: real)
      ensures recentLatencies == [] ==> p95 == p99 == 0.0
      ensures forall t :: Sorted(t) && Permutation(t, recentLatencies) && t != [] ==>
        p95 == Round(t[Rank(|t|, 95)], 100.0) && p99 == Round(t[Rank(|t|, 99)], 100.0)
      ensures p95 <= p99
    {
      if |recentLatencies| == 0 {
        return 0.0, 0.0;
      }
      RankedMonotone(recentLatencies, 95, 99);
      RankedIsOfAnySorting(recentLatencies);
      return Ranked(recentLatencies, 95), Ranked(recentLatencies, 99);
    }
  }

  function Rank(n: nat, percent: nat): (r: nat)
    requires n > 0
    ensures r < n && 100 * r <= percent * n && (r == n - 1 || percent * n < 100 * (r + 1))
  {
    var r := percent * n / 100;
    if r < n then r else n - 1
  }

  function Ranked(s: seq<real>, percent: nat): real
    requires s != []
  {
    SortedOfSorts(s);
    Round(SortedOf(s)[Rank(|s|, percent)], 100.0)
  }

  lemma RankMonotone(n: nat, p: nat, q: nat)
    requires n > 0 && p <= q
    ensures Rank(n, p) <= Rank(n, q)
  {
    assert p * n <= q * n by {
      assert (q - p) * n >= 0;
    }
  }

  lemma RankedMonotone(s: seq<real>, p: nat, q: nat)
    requires s != [] && p <= q
    ensures Ranked(s, p) <= Ranked(s, q)
  {
    SortedOfSorts(s);
    RankMonotone(|s|, p, q);
    RoundMonotone(SortedOf(s)[Rank(|s|, p)], SortedOf(s)[Rank(|s|, q)], 100.0);
  }

  lemma RankedIsOfAnySorting(s: seq<real>)
    ensures forall t :: Sorted(t) && Permutation(t, s) && t != [] ==>
      Ranked(s, 95) == Round(t[Rank(|t|, 95)], 100.0) && Ranked(s, 99) == Round(t[Rank(|t|, 99)], 100.0)
  {
    SortedOfSorts(s);
    forall t | Sorted(t) && Permutation(t, s) && t != []
      ensures t == SortedOf(s)
    {
      SortedUnique(t, SortedOf(s));
    }
  }

  function AverageOr(window: seq<Sample>, recent: seq<real>): real {
    if window != [] then AverageOf(window)
    else if recent != [] then Round(Sum(recent) / |recent| as real, 100.0)
    else 0.0
  }

  method Averaged(window: seq<Sample>, recent: seq<real>) returns (avg: real)
    ensures avg == AverageOr(window, recent)
  {
    if |window| > 0 {
      var count := Counted(window);
      var total := Totalled(window);
      avg := if count > 0 then Round(total / count as real, 100.0) else 0.0;
    } else if |recent| > 0 {
      var sum := Summed(recent);
      avg := Round(sum / |recent| as real, 100.0);
    } else {
      avg := 0.0;
    }
  }

  method Summed(s: seq<real>) returns (x: real)
    ensures x == Sum(s)
  {
    x := 0.0;
    for i := 0 to |s|
      invariant x == Sum(s[..i])
    {
      assert s[..i + 1][..i] == s[..i];
      x := x + s[i];
    }
    assert s[..|s|] == s;
  }

  method Counted(q: seq<Sample>) returns (n: nat)
    ensures n == CountOf(q)
  {
    n := 0;
    for i := 0 to |q|
      invariant n == CountOf(q[..i])
    {
      assert q[..i + 1][..i] == q[..i];
      n := n + q[i].count;
    }
    assert q[..|q|] == q;
  }

  method Totalled(q: seq<Sample>) returns (x: real)
    ensures x == TotalOf(q)
  {
    x := 0.0;
    for i := 0 to |q|
      invariant x == TotalOf(q[..i])
    {
      assert q[..i + 1][..i] == q[..i];
      x := x + q[i].total;
    }
    assert q[..|q|] == q;
  }
}
