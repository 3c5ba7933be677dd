/** Worker allocation by value: which workers a call to set_allocation keeps, retires and
    hires, and what that means over runs of calls. */
module Staffing {
  import opened Contracts

  /** A worker: the number in its identifier and whether it streams or batches. */
  datatype Badge = Badge(number: nat, stream: bool)

  /** The workers of each lane, the mode set for each lane, and the last number issued. */
  datatype Roster = Roster(critical: seq<Badge>, normal: seq<Badge>, bestEffort: seq<Badge>,
                           criticalStreams: bool, normalStreams: bool, bestEffortStreams: bool, counter: nat)

  datatype Target = Target(lane: Priority, count: int)
  datatype Switch = Switch(lane: Priority, stream: bool)
  datatype Call = Call(switches: seq<Switch>, allocation: seq<Target>)

  function LaneOf(r: Roster, p: Priority): seq<Badge> {
    match p
    case Critical => r.critical
    case Normal => r.normal
    case BestEffort => r.bestEffort
  }

  function WithLane(r: Roster, p: Priority, ws: seq<Badge>): Roster {
    match p
    case Critical => r.(critical := ws)
    case Normal => r.(normal := ws)
    case BestEffort => r.(bestEffort := ws)
  }

  function Streams(r: Roster, p: Priority): bool {
    match p
    case Critical => r.criticalStreams
    case Normal => r.normalStreams
    case BestEffort => r.bestEffortStreams
  }

  function WithMode(r: Roster, w: Switch): Roster {
    match w.lane
    case Critical => r.(criticalStreams := w.stream)
    case Normal => r.(normalStreams := w.stream)
    case BestEffort => r.(bestEffortStreams := w.stream)
  }

  function Wanted(count: int): (n: nat)
    ensures n == count || (count < 0 && n == 0)
  {
    if count < 0 then 0 else count
  }

  // ---- One lane ----

  function Matching(ws: seq<Badge>, stream: bool): seq<Badge> {
    if ws == [] then []
    else Matching(ws[..|ws| - 1], stream) + if ws[|ws| - 1].stream == stream then [ws[|ws| - 1]] else []
  }

  function Issue(counter: nat, n: nat, stream: bool): seq<Badge> {
    if n == 0 then [] else Issue(counter, n - 1, stream) + [Badge(counter + n, stream)]
  }

  /** How many workers a lane has to hire. */
  function Shortage(r: Roster, t: Target): nat {
    var kept := |Matching(LaneOf(r, t.lane), Streams(r, t.lane))|;
    if kept < Wanted(t.count) then Wanted(t.count) - kept else 0
  }

  /** The first workers in the mode, up to the target, then as many new ones as are short. */
  function Staffed(r: Roster, t: Target): seq<Badge> {
    var stream := Streams(r, t.lane);
    var kept := Matching(LaneOf(r, t.lane), stream);
    kept[..Min(|kept|, Wanted(t.count))] + Issue(r.counter, Shortage(r, t), stream)
  }

  function Staff(r: Roster, t: Target): Roster {
    WithLane(r, t.lane, Staffed(r, t)).(counter := r.counter + Shortage(r, t))
  }

  // ---- Calls ----

  function Switched(r: Roster, ws: seq<Switch>): Roster {
    if ws == [] then r else WithMode(Switched(r, ws[..|ws| - 1]), ws[|ws| - 1])
  }

  function StaffAll(r: Roster, ts: seq<Target>): Roster {
    if ts == [] then r else Staff(StaffAll(r, ts[..|ts| - 1]), ts[|ts| - 1])
  }

  function Apply(r: Roster, c: Call): Roster {
    StaffAll(Switched(r, c.switches), c.allocation)
  }

  function Run(r: Roster, cs: seq<Call>): Roster {
    if cs == [] then r else Apply(Run(r, cs[..|cs| - 1]), cs[|cs| - 1])
  }

  // ---- Exactly as many workers as asked for, all in the lane's mode ----

  predicate InMode(ws: seq<Badge>, stream: bool) {
    forall i :: 0 <= i < |ws| ==> ws[i].stream == stream
  }

  lemma {:induction false} MatchingInMode(ws: seq<Badge>, stream: bool)
    ensures InMode(Matching(ws, stream), stream)
  {
    if ws != [] {
      MatchingInMode(ws[..|ws| - 1], stream);
    }
  }

  lemma {:induction false} IssueInMode(counter: nat, n: nat, stream: bool)
    ensures |Issue(counter, n, stream)| == n && InMode(Issue(counter, n, stream), stream)
  {
    if n > 0 {
      IssueInMode(counter, n - 1, stream);
    }
  }

  lemma StaffIsExact(r: Roster, t: Target)
    ensures |LaneOf(Staff(r, t), t.lane)| == Wanted(t.count)
    ensures InMode(LaneOf(Staff(r, t), t.lane), Streams(r, t.lane))
    ensures forall p :: p != t.lane ==> LaneOf(Staff(r, t), p) == LaneOf(r, p)
    ensures forall p :: Streams(Staff(r, t), p) == Streams(r, p)
  {
    MatchingInMode(LaneOf(r, t.lane), Streams(r, t.lane));
    IssueInMode(r.counter, Shortage(r, t), Streams(r, t.lane));
  }

  /** The last count an allocation asks of a lane, if it names the lane at all. */
  function Asked(ts: seq<Target>, p: Priority): Option<nat> {
    if ts == [] then None
    else if ts[|ts| - 1].lane == p then Some(Wanted(ts[|ts| - 1].count))
    else Asked(ts[..|ts| - 1], p)
  }

  lemma {:induction false} StaffAllIsExact(r: Roster, ts: seq<Target>, p: Priority)
    ensures Streams(StaffAll(r, ts), p) == Streams(r, p)
    ensures Asked(ts, p) == None ==> LaneOf(StaffAll(r, ts), p) == LaneOf(r, p)
    ensures Asked(ts, p).Some? ==>
      && |LaneOf(StaffAll(r, ts), p)| == Asked(ts, p).value
      && InMode(LaneOf(StaffAll(r, ts), p), Streams(r, p))
  {
    if ts != [] {
      var before := StaffAll(r, ts[..|ts| - 1]);
      StaffAllIsExact(r, ts[..|ts| - 1], p);
      StaffAllIsExact(r, ts[..|ts| - 1], ts[|ts| - 1].lane);
      StaffIsExact(before, ts[|ts| - 1]);
    }
  }

  lemma {:induction false} SwitchedKeepsWorkers(r: Roster, ws: seq<Switch>, p: Priority)
    ensures LaneOf(Switched(r, ws), p) == LaneOf(r, p) && Switched(r, ws).counter == r.counter
  {
    if ws != [] {
      SwitchedKeepsWorkers(r, ws[..|ws| - 1], p);
    }
  }

  function AskedInRun(cs: seq<Call>, p: Priority): Option<nat> {
    if cs == [] then None
    else if Asked(cs[|cs| - 1].allocation, p).Some? then Asked(cs[|cs| - 1].allocation, p)
    else AskedInRun(cs[..|cs| - 1], p)
  }

  /** After any run of calls a lane has exactly the number of workers last asked for it, and
      as many as at the start if none ever was. */
  lemma {:induction false} RunStaffsExactly(r: Roster, cs: seq<Call>, p: Priority)
    ensures |LaneOf(Run(r, cs), p)| ==
      if AskedInRun(cs, p).Some? then AskedInRun(cs, p).value else |LaneOf(r, p)|
  {
    if cs != [] {
      var n := |cs| - 1;
      var before := Run(r, cs[..n]);
      RunStaffsExactly(r, cs[..n], p);
      SwitchedKeepsWorkers(before, cs[n].switches, p);
      StaffAllIsExact(Switched(before, cs[n].switches), cs[n].allocation, p);
    }
  }

  /** The mode that switches leave a lane in: the last that names it decides, if any does. */
  function SwitchedTo(ws: seq<Switch>, p: Priority): Option<bool> {
    if ws == [] then None
    else if ws[|ws| - 1].lane == p then Some(ws[|ws| - 1].stream)
    else SwitchedTo(ws[..|ws| - 1], p)
  }

  lemma {:induction false} LastSwitchDecides(r: Roster, ws: seq<Switch>, p: Priority)
    ensures Streams(Switched(r, ws), p) == if SwitchedTo(ws, p).Some? then SwitchedTo(ws, p).value else Streams(r, p)
  {
    if ws != [] {
      LastSwitchDecides(r, ws[..|ws| - 1], p);
    }
  }

  /** A requested mode takes effect: after a call a lane is in the mode of the last switch that
      names it, or in the mode it had, and so are all its workers if the call names it. */
  lemma ModesTakeEffect(r: Roster, c: Call, p: Priority)
    ensures Streams(Apply(r, c), p) ==
      if SwitchedTo(c.switches, p).Some? then SwitchedTo(c.switches, p).value else Streams(r, p)
    ensures Asked(c.allocation, p).Some? ==> InMode(LaneOf(Apply(r, c), p), Streams(Apply(r, c), p))
  {
    LastSwitchDecides(r, c.switches, p);
    StaffAllIsExact(Switched(r, c.switches), c.allocation, p);
  }

  /** The lanes a call names are all in the mode the call leaves them with. */
  lemma NamedLanesAreInMode(r: Roster, c: Call, p: Priority)
    requires Asked(c.allocation, p).Some?
    ensures InMode(LaneOf(Apply(r, c), p), Streams(Apply(r, c), p))
  {
    StaffAllIsExact(Switched(r, c.switches), c.allocation, p);
  }

  /** A lane that a call switches without naming it keeps its workers in the old mode. */
  lemma UnnamedLanesKeepTheirWorkers(r: Roster, c: Call, p: Priority)
    requires Asked(c.allocation, p) == None
    ensures LaneOf(Apply(r, c), p) == LaneOf(r, p)
    ensures Streams(Apply(r, c), p) == Streams(Switched(r, c.switches), p)
  {
    SwitchedKeepsWorkers(r, c.switches, p);
    StaffAllIsExact(Switched(r, c.switches), c.allocation, p);
  }

  // ---- Identifiers are never reused ----

  predicate Held(ws: seq<Badge>, n: nat) {
    exists i :: 0 <= i < |ws| && ws[i].number == n
  }

  ghost predicate Employed(r: Roster, n: nat) {
    exists p :: Held(LaneOf(r, p), n)
  }

  lemma HeldConcat(a: seq<Badge>, b: seq<Badge>, n: nat)
    ensures Held(a + b, n) <==> Held(a, n) || Held(b, n)
  {
    if Held(a, n) {
      var i :| 0 <= i < |a| && a[i].number == n;
      assert (a + b)[i].number == n;
    }
    if Held(b, n) {
      var i :| 0 <= i < |b| && b[i].number == n;
      assert (a + b)[|a| + i].number == n;
    }
  }

  lemma {:induction false} MatchingHeld(ws: seq<Badge>, stream: bool, n: nat)
    ensures Held(Matching(ws, stream), n) ==> Held(ws, n)
  {
    if ws != [] {
      var last := ws[|ws| - 1];
      MatchingHeld(ws[..|ws| - 1], stream, n);
      HeldConcat(Matching(ws[..|ws| - 1], stream), if last.stream == stream then [last] else [], n);
      HeldConcat(ws[..|ws| - 1], [last], n);
      assert ws == ws[..|ws| - 1] + [last];
      assert [last][0] == last;
    }
  }

  lemma {:induction false} IssueHeld(counter: nat, k: nat, stream: bool, n: nat)
    ensures Held(Issue(counter, k, stream), n) <==> counter < n <= counter + k
  {
    if k > 0 {
      IssueHeld(counter, k - 1, stream, n);
      HeldConcat(Issue(counter, k - 1, stream), [Badge(counter + k, stream)], n);
      assert [Badge(counter + k, stream)][0].number == counter + k;
    }
  }

  /** Who is in a lane after a call: someone who was there, or a number never issued before. */
  lemma StaffHeld(r: Roster, t: Target, p: Priority, n: nat)
    requires Held(LaneOf(Staff(r, t), p), n)
    ensures Held(LaneOf(r, p), n) || (p == t.lane && r.counter < n <= Staff(r, t).counter)
  {
    if p == t.lane {
      var kept := Matching(LaneOf(r, p), Streams(r, p));
      var k := Min(|kept|, Wanted(t.count));
      HeldConcat(kept[..k], Issue(r.counter, Shortage(r, t), Streams(r, p)), n);
      HeldConcat(kept[..k], kept[k..], n);
      assert kept == kept[..k] + kept[k..];
      MatchingHeld(LaneOf(r, p), Streams(r, p), n);
      IssueHeld(r.counter, Shortage(r, t), Streams(r, p), n);
    }
  }

  lemma {:induction false} StaffAllHeld(r: Roster, ts: seq<Target>, p: Priority, n: nat)
    requires Held(LaneOf(StaffAll(r, ts), p), n)
    ensures Held(LaneOf(r, p), n) || n > r.counter
    ensures r.counter <= StaffAll(r, ts).counter
    ensures Held(LaneOf(r, p), n) || n <= StaffAll(r, ts).counter
  {
    CounterGrows(r, ts);
    if ts != [] {
      var before := StaffAll(r, ts[..|ts| - 1]);
      CounterGrows(r, ts[..|ts| - 1]);
      StaffHeld(before, ts[|ts| - 1], p, n);
      if Held(LaneOf(before, p), n) {
        StaffAllHeld(r, ts[..|ts| - 1], p, n);
      }
    }
  }

  lemma {:induction false} CounterGrows(r: Roster, ts: seq<Target>)
    ensures r.counter <= StaffAll(r, ts).counter
  {
    if ts != [] {
      CounterGrows(r, ts[..|ts| - 1]);
    }
  }

  lemma ApplyHeld(r: Roster, c: Call, p: Priority, n: nat)
    ensures r.counter <= Apply(r, c).counter
    ensures Held(LaneOf(Apply(r, c), p), n) ==> Held(LaneOf(r, p), n) || r.counter < n <= Apply(r, c).counter
  {
    SwitchedKeepsWorkers(r, c.switches, p);
    CounterGrows(Switched(r, c.switches), c.allocation);
    if Held(LaneOf(Apply(r, c), p), n) {
      StaffAllHeld(Switched(r, c.switches), c.allocation, p, n);
    }
  }

  lemma {:induction false} RunHeld(r: Roster, cs: seq<Call>, p: Priority, n: nat)
    ensures r.counter <= Run(r, cs).counter
    ensures Held(LaneOf(Run(r, cs), p), n) ==> Held(LaneOf(r, p), n) || r.counter < n <= Run(r, cs).counter
  {
    if cs != [] {
      RunHeld(r, cs[..|cs| - 1], p, n);
      ApplyHeld(Run(r, cs[..|cs| - 1]), cs[|cs| - 1], p, n);
    }
  }

  /** Worker identifiers are never reused: an issued number that nobody holds is not held
      again after any run of calls. */
  lemma NumbersAreNeverReused(r: Roster, cs: seq<Call>, n: nat)
    requires n <= r.counter && !Employed(r, n)
    ensures !Employed(Run(r, cs), n)
  {
    forall p
      ensures !Held(LaneOf(Run(r, cs), p), n)
    {
      RunHeld(r, cs, p, n);
    }
  }

  /** Every worker keeps to one lane and one position: no two workers share a number. */
  predicate Ascending(ws: seq<Badge>, counter: nat) {
    && (forall i :: 0 <= i < |ws| ==> ws[i].number <= counter)
    && (forall i, j :: 0 <= i < j < |ws| ==> ws[i].number < ws[j].number)
  }

  ghost predicate Distinct(r: Roster) {
    && (forall p :: Ascending(LaneOf(r, p), r.counter))
    && (forall p, q, n :: p != q && Held(LaneOf(r, p), n) ==> !Held(LaneOf(r, q), n))
  }

  lemma AscendingConcat(a: seq<Badge>, b: seq<Badge>, mid: nat, top: nat)
    requires Ascending(a, mid) && Ascending(b, top) && mid <= top
    requires forall i :: 0 <= i < |b| ==> b[i].number > mid
    ensures Ascending(a + b, top)
  {
  }

  lemma AscendingPrefix(ws: seq<Badge>, counter: nat, n: nat)
    requires Ascending(ws, counter) && n <= |ws|
    ensures Ascending(ws[..n], counter)
    ensures n < |ws| ==> Ascending(ws[..n], ws[n].number) && !Held(ws[..n], ws[n].number)
  {
  }

  lemma MatchingStep(kept: seq<Badge>, w: Badge, below: nat, stream: bool)
    requires Ascending(kept, below) && (kept == [] || below < w.number)
    ensures Ascending(kept + (if w.stream == stream then [w] else []), w.number)
  {
    var more := if w.stream == stream then [w] else [];
    if kept == [] {
      assert kept + more == more;
    } else {
      AscendingConcat(kept, more, below, w.number);
    }
  }

  lemma {:induction false} MatchingAscends(ws: seq<Badge>, stream: bool, counter: nat)
    requires Ascending(ws, counter) && ws != []
    ensures Ascending(Matching(ws, stream), ws[|ws| - 1].number)
  {
    var n := |ws| - 1;
    if n == 0 {
      MatchingStep([], ws[0], 0, stream);
      assert Matching(ws[..0], stream) == [];
    } else {
      AscendingPrefix(ws, counter, n);
      MatchingAscends(ws[..n], stream, counter);
      MatchingStep(Matching(ws[..n], stream), ws[n], ws[n - 1].number, stream);
    }
  }

  lemma AscendingWeaken(ws: seq<Badge>, low: nat, high: nat)
    requires Ascending(ws, low) && low <= high
    ensures Ascending(ws, high)
  {
  }

  lemma KeptAscend(ws: seq<Badge>, stream: bool, counter: nat)
    requires Ascending(ws, counter)
    ensures Ascending(Matching(ws, stream), counter)
  {
    if ws != [] {
      MatchingAscends(ws, stream, counter);
      AscendingWeaken(Matching(ws, stream), ws[|ws| - 1].number, counter);
    }
  }

  lemma {:induction false} IssueAscends(counter: nat, k: nat, stream: bool)
    ensures Ascending(Issue(counter, k, stream), counter + k)
    ensures forall i :: 0 <= i < |Issue(counter, k, stream)| ==> Issue(counter, k, stream)[i].number > counter
  {
    if k > 0 {
      IssueAscends(counter, k - 1, stream);
      AscendingConcat(Issue(counter, k - 1, stream), [Badge(counter + k, stream)], counter + k - 1, counter + k);
    }
  }

  lemma StaffedAscends(r: Roster, t: Target)
    requires Ascending(LaneOf(r, t.lane), r.counter)
    ensures Ascending(Staffed(r, t), r.counter + Shortage(r, t))
  {
    var stream := Streams(r, t.lane);
    var kept := Matching(LaneOf(r, t.lane), stream);
    var n := Min(|kept|, Wanted(t.count));
    KeptAscend(LaneOf(r, t.lane), stream, r.counter);
    AscendingPrefix(kept, r.counter, n);
    IssueAscends(r.counter, Shortage(r, t), stream);
    var issued := Issue(r.counter, Shortage(r, t), stream);
    AscendingConcat(kept[..n], issued, r.counter, r.counter + Shortage(r, t));
    assert Staffed(r, t) == kept[..n] + issued;
  }

  lemma StaffedLaneAscends(r: Roster, t: Target)
    requires Ascending(LaneOf(r, t.lane), r.counter)
    ensures Ascending(LaneOf(Staff(r, t), t.lane), Staff(r, t).counter)
  {
    StaffedAscends(r, t);
  }

  lemma StaffAscends(r: Roster, t: Target)
    requires forall p :: Ascending(LaneOf(r, p), r.counter)
    ensures forall p :: Ascending(LaneOf(Staff(r, t), p), Staff(r, t).counter)
  {
    forall p
      ensures Ascending(LaneOf(Staff(r, t), p), Staff(r, t).counter)
    {
      assert Ascending(LaneOf(r, p), r.counter);
      if p == t.lane {
        StaffedLaneAscends(r, t);
      }
    }
  }

  lemma AscendingHeld(ws: seq<Badge>, counter: nat, n: nat)
    requires Ascending(ws, counter) && Held(ws, n)
    ensures n <= counter
  {
  }

  lemma StaffKeepsDistinct(r: Roster, t: Target)
    requires Distinct(r)
    ensures Distinct(Staff(r, t))
  {
    StaffAscends(r, t);
    forall p, q, n | p != q && Held(LaneOf(Staff(r, t), p), n)
      ensures !Held(LaneOf(Staff(r, t), q), n)
    {
      StaffHeld(r, t, p, n);
      if Held(LaneOf(Staff(r, t), q), n) {
        StaffHeld(r, t, q, n);
        if Held(LaneOf(r, p), n) {
          AscendingHeld(LaneOf(r, p), r.counter, n);
        } else {
          AscendingHeld(LaneOf(r, q), r.counter, n);
        }
      }
    }
  }

  lemma {:induction false} StaffAllKeepsDistinct(r: Roster, ts: seq<Target>)
    requires Distinct(r)
    ensures Distinct(StaffAll(r, ts))
  {
    if ts != [] {
      StaffAllKeepsDistinct(r, ts[..|ts| - 1]);
      StaffKeepsDistinct(StaffAll(r, ts[..|ts| - 1]), ts[|ts| - 1]);
    }
  }

  lemma SwitchedKeepsDistinct(r: Roster, ws: seq<Switch>)
    requires Distinct(r)
    ensures Distinct(Switched(r, ws))
  {
    forall p
      ensures LaneOf(Switched(r, ws), p) == LaneOf(r, p) && Switched(r, ws).counter == r.counter
    {
      SwitchedKeepsWorkers(r, ws, p);
    }
  }

  /** In every reachable roster no two workers share an identifier. */
  lemma {:induction false} RunKeepsDistinct(r: Roster, cs: seq<Call>)
    requires Distinct(r)
    ensures Distinct(Run(r, cs))
  {
    if cs != [] {
      var before := Run(r, cs[..|cs| - 1]);
      RunKeepsDistinct(r, cs[..|cs| - 1]);
      SwitchedKeepsDistinct(before, cs[|cs| - 1].switches);
      StaffAllKeepsDistinct(Switched(before, cs[|cs| - 1].switches), cs[|cs| - 1].allocation);
    }
  }

  // ---- Who survives ----

  lemma {:induction false} MatchingAll(ws: seq<Badge>, stream: bool)
    requires InMode(ws, stream)
    ensures Matching(ws, stream) == ws
  {
    if ws != [] {
      MatchingAll(ws[..|ws| - 1], stream);
      assert ws == ws[..|ws| - 1] + [ws[|ws| - 1]];
    }
  }

  /** The fewest workers asked of a lane, from `n` on. */
  function Lowest(ts: seq<Target>, p: Priority, n: nat): nat {
    if ts == [] then n
    else
      var m := Lowest(ts[..|ts| - 1], p, n);
      if ts[|ts| - 1].lane == p then Min(m, Wanted(ts[|ts| - 1].count)) else m
  }

  function LowestInRun(cs: seq<Call>, p: Priority, n: nat): nat {
    if cs == [] then n else Lowest(cs[|cs| - 1].allocation, p, LowestInRun(cs[..|cs| - 1], p, n))
  }

  /** The first `m` workers of a lane are still its first `m`, and the lane is in its mode. */
  predicate Survives(r: Roster, p: Priority, ws: seq<Badge>, m: nat, stream: bool) {
    && Streams(r, p) == stream && InMode(LaneOf(r, p), stream)
    && m <= |ws| && ws[..m] <= LaneOf(r, p)
    && (forall i :: m <= i < |ws| ==> !Held(LaneOf(r, p), ws[i].number))
  }

  lemma StaffSurvives(r: Roster, t: Target, p: Priority, ws: seq<Badge>, m: nat, stream: bool)
    requires Survives(r, p, ws, m, stream) && Distinct(r) && t.lane == p
    requires forall i :: 0 <= i < |ws| ==> ws[i].number <= r.counter
    ensures Survives(Staff(r, t), p, ws, Min(m, Wanted(t.count)), stream)
  {
    var lane := LaneOf(r, p);
    var k := Min(m, Wanted(t.count));
    StaffIsExact(r, t);
    MatchingAll(lane, stream);
    PrefixStays(lane, ws, m, Wanted(t.count));
    forall i | k <= i < |ws|
      ensures !Held(LaneOf(Staff(r, t), p), ws[i].number)
    {
      CutIsGone(r, t, p, ws, m, stream, i);
    }
  }

  lemma PrefixStays(lane: seq<Badge>, ws: seq<Badge>, m: nat, wanted: nat)
    requires m <= |ws| && ws[..m] <= lane
    ensures ws[..Min(m, wanted)] <= lane[..Min(|lane|, wanted)]
  {
    var k := Min(m, wanted);
    assert ws[..k] == ws[..m][..k] == lane[..k] == lane[..Min(|lane|, wanted)][..k];
  }

  lemma PrefixHeld(ws: seq<Badge>, n: nat, number: nat)
    requires n <= |ws| && Held(ws[..n], number)
    ensures Held(ws, number)
  {
    var i :| 0 <= i < n && ws[..n][i].number == number;
    assert ws[i].number == number;
  }

  lemma LaterIsNotHeld(ws: seq<Badge>, counter: nat, n: nat, i: nat)
    requires Ascending(ws, counter) && n <= i < |ws|
    ensures !Held(ws[..n], ws[i].number)
  {
  }

  lemma CutIsGone(r: Roster, t: Target, p: Priority, ws: seq<Badge>, m: nat, stream: bool, i: nat)
    requires Survives(r, p, ws, m, stream) && Ascending(LaneOf(r, p), r.counter) && t.lane == p
    requires Min(m, Wanted(t.count)) <= i < |ws| && ws[i].number <= r.counter
    ensures !Held(LaneOf(Staff(r, t), p), ws[i].number)
  {
    var lane := LaneOf(r, p);
    var n := Min(|lane|, Wanted(t.count));
    MatchingAll(lane, stream);
    HeldConcat(lane[..n], Issue(r.counter, Shortage(r, t), stream), ws[i].number);
    IssueHeld(r.counter, Shortage(r, t), stream, ws[i].number);
    if i < m {
      assert lane[i] == ws[..m][i];
      LaterIsNotHeld(lane, r.counter, n, i);
    } else if Held(lane[..n], ws[i].number) {
      PrefixHeld(lane, n, ws[i].number);
    }
  }

  lemma OthersSurvive(r: Roster, t: Target, p: Priority, ws: seq<Badge>, m: nat, stream: bool)
    requires Survives(r, p, ws, m, stream) && t.lane != p
    ensures Survives(Staff(r, t), p, ws, m, stream)
  {
    StaffIsExact(r, t);
  }

  lemma {:induction false} StaffAllSurvives(r: Roster, ts: seq<Target>, p: Priority, ws: seq<Badge>, m: nat, stream: bool)
    requires Survives(r, p, ws, m, stream) && Distinct(r)
    requires forall i :: 0 <= i < |ws| ==> ws[i].number <= r.counter
    ensures Survives(StaffAll(r, ts), p, ws, Lowest(ts, p, m), stream)
  {
    if ts != [] {
      var n := |ts| - 1;
      var before := StaffAll(r, ts[..n]);
      StaffAllSurvives(r, ts[..n], p, ws, m, stream);
      StaffAllKeepsDistinct(r, ts[..n]);
      CounterGrows(r, ts[..n]);
      if ts[n].lane == p {
        StaffSurvives(before, ts[n], p, ws, Lowest(ts[..n], p, m), stream);
      } else {
        OthersSurvive(before, ts[n], p, ws, Lowest(ts[..n], p, m), stream);
      }
    }
  }

  /** A call that leaves a lane's mode as it is. */
  predicate KeepsMode(c: Call, p: Priority, stream: bool) {
    forall i :: 0 <= i < |c.switches| && c.switches[i].lane == p ==> c.switches[i].stream == stream
  }

  lemma {:induction false} SwitchedKeepsMode(r: Roster, ws: seq<Switch>, p: Priority, stream: bool)
    requires Streams(r, p) == stream
    requires forall i :: 0 <= i < |ws| && ws[i].lane == p ==> ws[i].stream == stream
    ensures Streams(Switched(r, ws), p) == stream
  {
    if ws != [] {
      SwitchedKeepsMode(r, ws[..|ws| - 1], p, stream);
      if ws[|ws| - 1].lane == p {
        assert ws[|ws| - 1].stream == stream;
      }
    }
  }

  /** Over any run of calls that leave a lane in its mode, the workers that survive are
      exactly the first ones, in their order, as many as the fewest ever asked for. */
  lemma {:induction false} SurvivorsAreTheFirst(r: Roster, cs: seq<Call>, p: Priority)
    requires Distinct(r) && InMode(LaneOf(r, p), Streams(r, p))
    requires forall i :: 0 <= i < |cs| ==> KeepsMode(cs[i], p, Streams(r, p))
    ensures Survives(Run(r, cs), p, LaneOf(r, p), LowestInRun(cs, p, |LaneOf(r, p)|), Streams(r, p))
  {
    var ws, stream := LaneOf(r, p), Streams(r, p);
    if cs == [] {
      assert ws[..|ws|] == ws;
    } else {
      var n := |cs| - 1;
      var before := Run(r, cs[..n]);
      SurvivorsAreTheFirst(r, cs[..n], p);
      RunKeepsDistinct(r, cs[..n]);
      assert KeepsMode(cs[n], p, stream);
      SurvivesCall(before, cs[n], p, ws, LowestInRun(cs[..n], p, |ws|), stream) by {
        RunHeld(r, cs[..n], p, 0);
        assert Ascending(ws, r.counter);
      }
    }
  }

  lemma SurvivesCall(r: Roster, c: Call, p: Priority, ws: seq<Badge>, m: nat, stream: bool)
    requires Survives(r, p, ws, m, stream) && Distinct(r) && KeepsMode(c, p, stream)
    requires forall i :: 0 <= i < |ws| ==> ws[i].number <= r.counter
    ensures Survives(Apply(r, c), p, ws, Lowest(c.allocation, p, m), stream)
  {
    SwitchedKeepsWorkers(r, c.switches, p);
    SwitchedKeepsMode(r, c.switches, p, stream);
    SwitchedKeepsDistinct(r, c.switches);
    StaffAllSurvives(Switched(r, c.switches), c.allocation, p, ws, m, stream);
  }

  // ---- Nothing to change ----

  predicate Settled(r: Roster, ts: seq<Target>) {
    forall i :: 0 <= i < |ts| ==>
      |LaneOf(r, ts[i].lane)| == Wanted(ts[i].count) && InMode(LaneOf(r, ts[i].lane), Streams(r, ts[i].lane))
  }

  /** A call that asks for what is already there, such as a change of batch sizes only,
      replaces no worker and issues no identifier. */
  lemma {:induction false} SettledCallsChangeNothing(r: Roster, ts: seq<Target>)
    requires Settled(r, ts)
    ensures StaffAll(r, ts) == r
  {
    if ts != [] {
      var t := ts[|ts| - 1];
      SettledCallsChangeNothing(r, ts[..|ts| - 1]);
      MatchingAll(LaneOf(r, t.lane), Streams(r, t.lane));
      assert LaneOf(r, t.lane)[..|LaneOf(r, t.lane)|] + [] == LaneOf(r, t.lane);
    }
  }
}
