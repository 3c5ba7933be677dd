/** The dispatcher over the three lane queues, proved against `Aging`. */
module Dispatching {
  import opened Contracts
  import opened Lanes
  import opened Aging

  class Dispatcher {
    const critical: LaneQueue
    const normal: LaneQueue
    const bestEffort: LaneQueue
    const agingThresholdSec: real
    var stats: Stats

    ghost predicate Valid()
      reads this, critical, normal, bestEffort
    {
      && critical != normal && critical != bestEffort && normal != bestEffort
      && critical.Valid() && normal.Valid() && bestEffort.Valid()
    }

    ghost function State(): Aging.Lanes
      reads this, critical, normal, bestEffort
    {
      Aging.Lanes(critical.items, normal.items, bestEffort.items, stats, agingThresholdSec)
    }

    constructor (critical: LaneQueue, normal: LaneQueue, bestEffort: LaneQueue, threshold: real)
      requires critical != normal && critical != bestEffort && normal != bestEffort
      requires critical.Valid() && normal.Valid() && bestEffort.Valid()
      ensures Valid() && stats == Stats(0, 0, 0, 0, None)
      ensures this.critical == critical && this.normal == normal && this.bestEffort == bestEffort
      ensures agingThresholdSec == if threshold < 0.01 then 0.01 else threshold
    {
      this.critical, this.normal, this.bestEffort := critical, normal, bestEffort;
      agingThresholdSec := if threshold < 0.01 then 0.01 else threshold;
      stats := Stats(0, 0, 0, 0, None);
    }

    method CheckAndPromoteAgedEvent(now: real) returns (r: Option<Event>)
      requires Valid()
      modifies this, bestEffort
      ensures Valid() && State() == CheckAndPromote(old(State()), now).0
      ensures r == Returned(CheckAndPromote(old(State()), now).1)
    {
      var head := bestEffort.Peek();
      if head == None {
        return None;
      }
      stats := stats.(evaluated := stats.evaluated + 1);
      var waitTime := WaitTime(head.value, now);
      if waitTime <= agingThresholdSec {
        stats := stats.(skippedNotExpired := stats.skippedNotExpired + 1);
        return None;
      }
      if !IsStateless(head.value) {
        stats := stats.(skippedStateful := stats.skippedStateful + 1);
        return None;
      }
      var e := bestEffort.DequeueNowait();
      stats := stats.(promoted := stats.promoted + 1, lastPromotedAt := Some(now));
      return Some(Promote(e.value, now));
    }

    method PopNormalNowait(now: real) returns (r: Option<Event>)
      requires Valid()
      modifies this, normal, bestEffort
      ensures Valid() && State() == PopNormal(old(State()), now).0
      ensures r == Returned(PopNormal(old(State()), now).1)
    {
      r := CheckAndPromoteAgedEvent(now);
      if r == None {
        r := normal.DequeueNowait();
      }
    }

    method PopAnyEvent(now: real) returns (r: Option<Event>)
      requires Valid()
      modifies this, critical, normal, bestEffort
      ensures Valid() && State() == PopAny(old(State()), now).0
      ensures r == Returned(PopAny(old(State()), now).1)
    {
      if |critical.items| > 0 {
        r := critical.DequeueNowait();
        return;
      }
      r := CheckAndPromoteAgedEvent(now);
      if r.Some? {
        return;
      }
      if |normal.items| > 0 {
        r := normal.DequeueNowait();
        return;
      }
      if |bestEffort.items| > 0 {
        r := bestEffort.DequeueNowait();
      }
    }
  }

  /** What the caller receives of a delivery. */
  function Returned(o: Option<Out>): Option<Event> {
    if o.Some? then Some(o.value.returned) else None
  }
}
