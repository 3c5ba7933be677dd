/** Lazy priority aging: what each pull from the lanes returns and leaves behind, and
    what that means over runs of enqueues and pulls. */
module Aging {
  import opened Contracts

  datatype Stats = Stats(evaluated: nat, promoted: nat, skippedStateful: nat, skippedNotExpired: nat,
                         lastPromotedAt: Option<real>)

  datatype Lanes = Lanes(critical: seq<Event>, normal: seq<Event>, bestEffort: seq<Event>,
                         stats: Stats, threshold: real)

  function LaneOf(d: Lanes, p: Priority): seq<Event> {
    match p
    case Critical => d.critical
    case Normal => d.normal
    case BestEffort => d.bestEffort
  }

  /** Only these event types may overtake others without breaking causal order. */
  predicate IsStateless(e: Event) {
    e.eventType in {Click, PageView, Log}
  }

  function WaitTime(e: Event, now: real): real {
    var w := now - RefTime(e);
    if w < 0.0 then 0.0 else w
  }

  predicate Aged(e: Event, now: real, threshold: real) {
    WaitTime(e, now) > threshold
  }

  function Promote(e: Event, now: real): Event {
    e.(priority := Some(Normal), promotedAt := Some(now))
  }

  // ---- The pulls ----

  /** One delivered event: the lane it was taken from, as it was queued, as it is returned,
      and when it was promoted if it was. */
  datatype Out = Out(lane: Priority, original: Event, returned: Event, promotedAt: Option<real>)

  function WithLane(d: Lanes, p: Priority, q: seq<Event>): Lanes {
    match p
    case Critical => d.(critical := q)
    case Normal => d.(normal := q)
    case BestEffort => d.(bestEffort := q)
  }

  function CheckAndPromote(d: Lanes, now: real): (Lanes, Option<Out>) {
    if d.bestEffort == [] then (d, None)
    else
      var head := d.bestEffort[0];
      var st := d.stats.(evaluated := d.stats.evaluated + 1);
      if !Aged(head, now, d.threshold) then
        (d.(stats := st.(skippedNotExpired := st.skippedNotExpired + 1)), None)
      else if !IsStateless(head) then
        (d.(stats := st.(skippedStateful := st.skippedStateful + 1)), None)
      else
        (d.(bestEffort := d.bestEffort[1..],
            stats := st.(promoted := st.promoted + 1, lastPromotedAt := Some(now))),
         Some(Out(BestEffort, head, Promote(head, now), Some(now))))
  }

  /** `None` is where the source raises QueueEmpty. */
  function TakeFrom(d: Lanes, p: Priority): (Lanes, Option<Out>) {
    var q := LaneOf(d, p);
    if q == [] then (d, None) else (WithLane(d, p, q[1..]), Some(Out(p, q[0], q[0], None)))
  }

  function PopNormal(d: Lanes, now: real): (Lanes, Option<Out>) {
    var (d1, promoted) := CheckAndPromote(d, now);
    if promoted.Some? then (d1, promoted) else TakeFrom(d1, Normal)
  }

  function PopAny(d: Lanes, now: real): (Lanes, Option<Out>) {
    if d.critical != [] then TakeFrom(d, Critical)
    else
      var (d1, r) := PopNormal(d, now);
      if r.Some? then (d1, r) else TakeFrom(d1, BestEffort)
  }

  // ---- Runs ----

  datatype Op =
    | Enqueue(lane: Priority, e: Event)
    | PullNormal(now: real)
    | PullAny(now: real)
    | PullLane(lane: Priority)

  function Do(d: Lanes, op: Op): (Lanes, Option<Out>) {
    match op
    case Enqueue(p, e) => (WithLane(d, p, LaneOf(d, p) + [e]), None)
    case PullNormal(now) => PopNormal(d, now)
    case PullAny(now) => PopAny(d, now)
    case PullLane(p) => TakeFrom(d, p)
  }

  function Final(d: Lanes, ops: seq<Op>): Lanes
    decreases |ops|
  {
    if ops == [] then d else Final(Do(d, ops[0]).0, ops[1..])
  }

  function AsSeq(o: Option<Out>): seq<Out> {
    if o.Some? then [o.value] else []
  }

  function Outs(d: Lanes, ops: seq<Op>): seq<Out>
    decreases |ops|
  {
    if ops == [] then [] else AsSeq(Do(d, ops[0]).1) + Outs(Do(d, ops[0]).0, ops[1..])
  }

  /** The original events that one lane delivered, in order. */
  function FromLane(outs: seq<Out>, p: Priority): seq<Event> {
    if outs == [] then []
    else (if outs[0].lane == p then [outs[0].original] else []) + FromLane(outs[1..], p)
  }

  function EnteredBy(op: Op, p: Priority): seq<Event> {
    if op.Enqueue? && op.lane == p then [op.e] else []
  }

  function Entered(ops: seq<Op>, p: Priority): seq<Event> {
    if ops == [] then [] else EnteredBy(ops[0], p) + Entered(ops[1..], p)
  }

  function Promotions(outs: seq<Out>): nat {
    if outs == [] then 0 else (if outs[0].promotedAt.Some? then 1 else 0) + Promotions(outs[1..])
  }

  lemma {:induction false} FromLaneConcat(a: seq<Out>, b: seq<Out>, p: Priority)
    ensures FromLane(a + b, p) == FromLane(a, p) + FromLane(b, p)
  {
    if a == [] {
      assert a + b == b;
    } else {
      assert (a + b)[1..] == a[1..] + b;
      FromLaneConcat(a[1..], b, p);
      Assoc(if a[0].lane == p then [a[0].original] else [], FromLane(a[1..], p), FromLane(b, p));
    }
  }

  lemma Assoc(a: seq<Event>, b: seq<Event>, c: seq<Event>)
    ensures (a + b) + c == a + (b + c)
  {
  }

  lemma {:induction false} PromotionsConcat(a: seq<Out>, b: seq<Out>)
    ensures Promotions(a + b) == Promotions(a) + Promotions(b)
  {
    if a == [] {
      assert a + b == b;
    } else {
      assert (a + b)[1..] == a[1..] + b;
      PromotionsConcat(a[1..], b);
    }
  }

  // ---- One operation ----

  /** When the waiting of an event began: it was received, or else it was made, then. */
  predicate WaitedSince(e: Event, t: real) {
    e.receivedAt == Some(t) || (e.receivedAt == None && e.timestamp == t)
  }

  /** An event that is turned over from BEST_EFFORT to NORMAL, and is otherwise as it was. */
  predicate TurnedOver(was: Event, e: Event, now: real) {
    && e.priority == Some(Normal) && e.promotedAt == Some(now)
    && SameOrigin(was, e) && e.retries == was.retries && e.recoveredAt == was.recoveredAt
  }

  /** A pull for NORMAL promotes if and only if the BEST_EFFORT head is a click, a page view or a
      log entry that has waited for longer than the threshold; it returns that event then, and
      the NORMAL head otherwise. */
  lemma PromotedIff(d: Lanes, now: real, t: real)
    requires 0.0 <= d.threshold && (d.bestEffort != [] ==> WaitedSince(d.bestEffort[0], t))
    ensures var (d', o) := PopNormal(d, now);
      var promotes := d.bestEffort != [] && d.bestEffort[0].eventType in {Click, PageView, Log} && now - t > d.threshold;
      if promotes then
        && o.Some? && o.value.lane == BestEffort && o.value.promotedAt == Some(now)
        && o.value.original == d.bestEffort[0] && TurnedOver(d.bestEffort[0], o.value.returned, now)
        && d'.normal == d.normal && [d.bestEffort[0]] + d'.bestEffort == d.bestEffort
      else if d.normal != [] then
        && o == Some(Out(Normal, d.normal[0], d.normal[0], None))
        && [d.normal[0]] + d'.normal == d.normal && d'.bestEffort == d.bestEffort
      else
        o == None && d'.normal == d.normal && d'.bestEffort == d.bestEffort
  {
  }

  /** How an inspection of the BEST_EFFORT head is booked, once: as too young if it is, else as
      stateful if it is, else as promoted. */
  lemma InspectionIsBooked(d: Lanes, now: real, t: real)
    requires 0.0 <= d.threshold && d.bestEffort != [] && WaitedSince(d.bestEffort[0], t)
    ensures var was, st := d.stats, PopNormal(d, now).0.stats;
      && st.evaluated == was.evaluated + 1
      && st.skippedNotExpired == was.skippedNotExpired + (if now - t <= d.threshold then 1 else 0)
      && (now - t > d.threshold && d.bestEffort[0].eventType in {Click, PageView, Log} ==>
            st.promoted == was.promoted + 1 && st.lastPromotedAt == Some(now)
            && st.skippedStateful == was.skippedStateful)
      && (now - t > d.threshold && d.bestEffort[0].eventType !in {Click, PageView, Log} ==>
            st.skippedStateful == was.skippedStateful + 1)
      && (now - t <= d.threshold || d.bestEffort[0].eventType !in {Click, PageView, Log} ==>
            st.promoted == was.promoted && st.lastPromotedAt == was.lastPromotedAt)
  {
  }

  /** A general pull returns the CRITICAL head if there is one; else what a pull for NORMAL
      returns, if it returns anything; else the BEST_EFFORT head; and nothing only when every
      lane is empty. */
  lemma ForemostIsPulled(d: Lanes, now: real)
    ensures var (d', o) := PopAny(d, now);
      && (d.critical != [] ==>
            && o == Some(Out(Critical, d.critical[0], d.critical[0], None))
            && [d.critical[0]] + d'.critical == d.critical && d'.normal == d.normal && d'.bestEffort == d.bestEffort
            && d'.stats == d.stats)
      && (d.critical == [] && PopNormal(d, now).1.Some? ==> (d', o) == PopNormal(d, now))
      && (d.critical == d.normal == [] && d.bestEffort != [] && PopNormal(d, now).1 == None ==>
            && o == Some(Out(BestEffort, d.bestEffort[0], d.bestEffort[0], None))
            && [d.bestEffort[0]] + d'.bestEffort == d.bestEffort)
      && (o == None <==> d.critical == d.normal == d.bestEffort == [])
  {
  }

  function Gave(o: Option<Out>, p: Priority): seq<Event> {
    if o.Some? && o.value.lane == p then [o.value.original] else []
  }

  lemma TakeFromGives(d: Lanes, from: Priority, p: Priority)
    ensures Gave(TakeFrom(d, from).1, p) + LaneOf(TakeFrom(d, from).0, p) == LaneOf(d, p)
  {
    if p == from && LaneOf(d, p) != [] {
      assert LaneOf(d, p) == [LaneOf(d, p)[0]] + LaneOf(d, p)[1..];
    } else {
      assert [] + LaneOf(d, p) == LaneOf(d, p);
    }
  }

  lemma CheckGives(d: Lanes, now: real, p: Priority)
    ensures Gave(CheckAndPromote(d, now).1, p) + LaneOf(CheckAndPromote(d, now).0, p) == LaneOf(d, p)
    ensures CheckAndPromote(d, now).1 == None ==> LaneOf(CheckAndPromote(d, now).0, p) == LaneOf(d, p)
  {
    if p == BestEffort && d.bestEffort != [] {
      assert d.bestEffort == [d.bestEffort[0]] + d.bestEffort[1..];
    }
    assert [] + LaneOf(d, p) == LaneOf(d, p);
  }

  lemma PopNormalGives(d: Lanes, now: real, p: Priority)
    ensures Gave(PopNormal(d, now).1, p) + LaneOf(PopNormal(d, now).0, p) == LaneOf(d, p)
    ensures PopNormal(d, now).1 == None ==> LaneOf(PopNormal(d, now).0, p) == LaneOf(d, p)
  {
    CheckGives(d, now, p);
    TakeFromGives(CheckAndPromote(d, now).0, Normal, p);
  }

  lemma PopAnyGives(d: Lanes, now: real, p: Priority)
    ensures Gave(PopAny(d, now).1, p) + LaneOf(PopAny(d, now).0, p) == LaneOf(d, p)
  {
    TakeFromGives(d, Critical, p);
    PopNormalGives(d, now, p);
    TakeFromGives(PopNormal(d, now).0, BestEffort, p);
  }

  lemma EnqueueGives(d: Lanes, to: Priority, e: Event, p: Priority)
    ensures [] + LaneOf(WithLane(d, to, LaneOf(d, to) + [e]), p) == LaneOf(d, p) + if to == p then [e] else []
  {
    if to != p {
      assert LaneOf(d, p) + [] == LaneOf(d, p);
    }
  }

  /** A pull takes the head of one lane; an enqueue adds to the tail of one; nothing else moves. */
  lemma OneOp(d: Lanes, op: Op, p: Priority)
    ensures Gave(Do(d, op).1, p) + LaneOf(Do(d, op).0, p) == LaneOf(d, p) + EnteredBy(op, p)
  {
    match op
    case Enqueue(to, e) => EnqueueGives(d, to, e, p);
    case PullNormal(now) => PopNormalGives(d, now, p); NothingEntered(LaneOf(d, p));
    case PullAny(now) => PopAnyGives(d, now, p); NothingEntered(LaneOf(d, p));
    case PullLane(from) => TakeFromGives(d, from, p); NothingEntered(LaneOf(d, p));
  }

  lemma NothingEntered(q: seq<Event>)
    ensures q + [] == q
  {
  }

  /** What a pull may return: a promoted event was stateless and had aged, and any other
      event comes out as it went in. */
  predicate Proper(o: Out, threshold: real) {
    if o.promotedAt.Some? then
      && o.lane == BestEffort && IsStateless(o.original)
      && Aged(o.original, o.promotedAt.value, threshold)
      && o.returned == Promote(o.original, o.promotedAt.value)
    else
      o.returned == o.original
  }

  predicate Balanced(st: Stats) {
    st.evaluated == st.promoted + st.skippedStateful + st.skippedNotExpired
  }

  lemma OneOpProper(d: Lanes, op: Op)
    ensures Do(d, op).1.Some? ==> Proper(Do(d, op).1.value, d.threshold)
    ensures Do(d, op).0.threshold == d.threshold
    ensures Balanced(d.stats) ==> Balanced(Do(d, op).0.stats)
    ensures Do(d, op).0.stats.promoted == d.stats.promoted + Promotions(AsSeq(Do(d, op).1))
  {
    var o := Do(d, op).1;
    if o.Some? {
      assert [o.value][1..] == [];
    }
  }

  // ---- Main results ----

  /** Order-preserving promotion. In any run of enqueues and pulls, what a lane delivered
      followed by what it still holds is what it held followed by what entered it: each
      lane's deliveries are a prefix of its arrivals, in order, nothing lost or duplicated.
      Since every delivery is from some lane, the output is a shuffle of those prefixes. */
  lemma {:induction false} DeliveriesAreAShuffle(d: Lanes, ops: seq<Op>, p: Priority)
    ensures FromLane(Outs(d, ops), p) + LaneOf(Final(d, ops), p) == LaneOf(d, p) + Entered(ops, p)
    decreases |ops|
  {
    if ops != [] {
      var (d1, o) := Do(d, ops[0]);
      var outs1, rest := Outs(d1, ops[1..]), LaneOf(Final(d1, ops[1..]), p);
      DeliveriesAreAShuffle(d1, ops[1..], p);
      OneOp(d, ops[0], p);
      GaveIsFromLane(o, p);
      FromLaneConcat(AsSeq(o), outs1, p);
      Shift(Gave(o, p), FromLane(outs1, p), rest, LaneOf(d1, p), Entered(ops[1..], p), LaneOf(d, p), EnteredBy(ops[0], p));
    }
  }

  lemma GaveIsFromLane(o: Option<Out>, p: Priority)
    ensures FromLane(AsSeq(o), p) == Gave(o, p)
  {
    if o.Some? {
      assert [o.value][1..] == [];
    }
  }

  lemma Shift(gave: seq<Event>, later: seq<Event>, rest: seq<Event>, lane1: seq<Event>, entered: seq<Event>,
              lane: seq<Event>, entry: seq<Event>)
    requires later + rest == lane1 + entered && gave + lane1 == lane + entry
    ensures (gave + later) + rest == lane + (entry + entered)
  {
    assert (gave + later) + rest == gave + (later + rest);
    assert gave + (lane1 + entered) == (gave + lane1) + entered;
    assert (lane + entry) + entered == lane + (entry + entered);
  }

  /** Over any run every promotion was of an aged, stateless event, and the statistics
      account for every inspection. */
  lemma {:induction false} PromotionsAreProper(d: Lanes, ops: seq<Op>)
    requires Balanced(d.stats)
    ensures forall i :: 0 <= i < |Outs(d, ops)| ==> Proper(Outs(d, ops)[i], d.threshold)
    ensures Balanced(Final(d, ops).stats)
    ensures Final(d, ops).stats.promoted == d.stats.promoted + Promotions(Outs(d, ops))
    decreases |ops|
  {
    if ops != [] {
      var (d1, o) := Do(d, ops[0]);
      OneOpProper(d, ops[0]);
      PromotionsAreProper(d1, ops[1..]);
      PromotionsConcat(AsSeq(o), Outs(d1, ops[1..]));
    }
  }

  // ---- Anti-starvation ----

  /** The first `k` BEST_EFFORT events are stateless and past the threshold by `since`. */
  predicate Starving(q: seq<Event>, k: nat, since: real, threshold: real) {
    k <= |q| && forall i :: 0 <= i < k ==> IsStateless(q[i]) && Aged(q[i], since, threshold)
  }

  /** Anything may be added anywhere, and CRITICAL and NORMAL may be served directly, as the workers
      serve them; BEST_EFFORT is not. */
  predicate Admissible(op: Op, since: real) {
    match op
    case Enqueue(_, _) => true
    case PullNormal(now) => since <= now
    case PullAny(now) => since <= now
    case PullLane(p) => p != BestEffort
  }

  /** A pull for the NORMAL lane, or a general pull that finds CRITICAL empty. */
  predicate IsTurn(d: Lanes, op: Op) {
    op.PullNormal? || (op.PullAny? && d.critical == [])
  }

  function Turns(d: Lanes, ops: seq<Op>): nat
    decreases |ops|
  {
    if ops == [] then 0 else (if IsTurn(d, ops[0]) then 1 else 0) + Turns(Do(d, ops[0]).0, ops[1..])
  }

  /** What the turns returned. */
  function Served(d: Lanes, ops: seq<Op>): seq<Out>
    decreases |ops|
  {
    if ops == [] then []
    else (if IsTurn(d, ops[0]) then AsSeq(Do(d, ops[0]).1) else []) + Served(Do(d, ops[0]).0, ops[1..])
  }

  predicate IsPromotionOf(o: Out, e: Event) {
    && o.lane == BestEffort && o.promotedAt.Some? && o.original == e
    && o.returned == Promote(e, o.promotedAt.value)
  }

  /** The first `n` deliveries are the promotions of the first `n` events, in order. */
  predicate Serves(outs: seq<Out>, q: seq<Event>, n: nat) {
    n <= |outs| && n <= |q| && forall i :: 0 <= i < n ==> IsPromotionOf(outs[i], q[i])
  }

  lemma ServesOneMore(o: Out, outs: seq<Out>, q: seq<Event>, n: nat)
    requires q != [] && IsPromotionOf(o, q[0]) && Serves(outs, q[1..], n)
    ensures Serves([o] + outs, q, n + 1)
  {
    forall i | 0 <= i < n + 1
      ensures IsPromotionOf(([o] + outs)[i], q[i])
    {
      if i > 0 {
        assert IsPromotionOf(outs[i - 1], q[1..][i - 1]);
      }
    }
  }

  lemma ServesPrefix(outs: seq<Out>, q: seq<Event>, longer: seq<Event>, n: nat)
    requires Serves(outs, longer, n) && q <= longer && n <= |q|
    ensures Serves(outs, q, n)
  {
    forall i | 0 <= i < n
      ensures IsPromotionOf(outs[i], q[i])
    {
      assert IsPromotionOf(outs[i], longer[i]);
    }
  }

  /** The next turns serve exactly the starving events, in order, whatever the other lanes
      hold or receive in the meantime. */
  lemma {:induction false} StarvingAreServedNext(d: Lanes, ops: seq<Op>, k: nat, since: real)
    requires Starving(d.bestEffort, k, since, d.threshold) && 0.0 <= d.threshold
    requires forall i :: 0 <= i < |ops| ==> Admissible(ops[i], since)
    ensures Serves(Served(d, ops), d.bestEffort, Min(Turns(d, ops), k))
    decreases |ops|
  {
    if ops != [] && k > 0 {
      var (d1, o) := Do(d, ops[0]);
      assert Admissible(ops[0], since);
      StarvingStep(d, ops[0], k, since);
      if IsTurn(d, ops[0]) {
        StarvingAreServedNext(d1, ops[1..], k - 1, since);
        ServesOneMore(o.value, Served(d1, ops[1..]), d.bestEffort, Min(Turns(d1, ops[1..]), k - 1));
      } else {
        StarvingAreServedNext(d1, ops[1..], k, since);
        ServesPrefix(Served(d1, ops[1..]), d.bestEffort, d1.bestEffort, Min(Turns(d1, ops[1..]), k));
        assert [] + Served(d1, ops[1..]) == Served(d1, ops[1..]);
      }
    }
  }

  lemma StarvingStep(d: Lanes, op: Op, k: nat, since: real)
    requires Starving(d.bestEffort, k, since, d.threshold) && 0.0 <= d.threshold && k > 0
    requires Admissible(op, since)
    ensures Do(d, op).0.threshold == d.threshold
    ensures IsTurn(d, op) ==>
      && Do(d, op).0.bestEffort == d.bestEffort[1..]
      && Do(d, op).1 == Some(Out(BestEffort, d.bestEffort[0], Promote(d.bestEffort[0], op.now), Some(op.now)))
    ensures !IsTurn(d, op) ==> d.bestEffort <= Do(d, op).0.bestEffort
    ensures Starving(Do(d, op).0.bestEffort, if IsTurn(d, op) then k - 1 else k, since, d.threshold)
  {
    if IsTurn(d, op) {
      assert IsStateless(d.bestEffort[0]) && Aged(d.bestEffort[0], since, d.threshold);
    }
  }

  /** The anti-starvation bound: when BEST_EFFORT is ordered by reference time and its event
      at position `k` has aged, the next `k + 1` turns serve positions 0 to `k`. */
  lemma AntiStarvation(d: Lanes, ops: seq<Op>, k: nat, since: real)
    requires k < |d.bestEffort| && 0.0 <= d.threshold
    requires forall i, j :: 0 <= i <= j <= k ==> RefTime(d.bestEffort[i]) <= RefTime(d.bestEffort[j])
    requires forall i :: 0 <= i <= k ==> IsStateless(d.bestEffort[i])
    requires Aged(d.bestEffort[k], since, d.threshold)
    requires forall i :: 0 <= i < |ops| ==> Admissible(ops[i], since)
    requires Turns(d, ops) >= k + 1
    ensures Serves(Served(d, ops), d.bestEffort, k + 1)
  {
    forall i | 0 <= i <= k
      ensures Aged(d.bestEffort[i], since, d.threshold)
    {
      assert RefTime(d.bestEffort[i]) <= RefTime(d.bestEffort[k]);
    }
    StarvingAreServedNext(d, ops, k + 1, since);
  }

  // ---- Exactly how many are served ----

  predicate MayPromote(e: Event, now: real, threshold: real) {
    IsStateless(e) && Aged(e, now, threshold)
  }

  /** How many events from the head on may be promoted, one after another. */
  function Eligible(q: seq<Event>, now: real, threshold: real): nat {
    if q == [] || !MayPromote(q[0], now, threshold) then 0 else 1 + Eligible(q[1..], now, threshold)
  }

  predicate PullsOrFeeds(op: Op, now: real) {
    op == PullNormal(now) || ((op.Enqueue? || op.PullLane?) && op.lane != BestEffort)
  }

  function Pulls(ops: seq<Op>): nat {
    if ops == [] then 0 else (if ops[0].PullNormal? then 1 else 0) + Pulls(ops[1..])
  }

  lemma {:induction false} EligibleFits(q: seq<Event>, now: real, threshold: real)
    ensures Eligible(q, now, threshold) <= |q|
  {
    if q != [] {
      EligibleFits(q[1..], now, threshold);
    }
  }

  lemma PullStep(d: Lanes, now: real)
    ensures var (d1, o) := PopNormal(d, now);
      if Eligible(d.bestEffort, now, d.threshold) > 0 then
        Gave(o, BestEffort) == [d.bestEffort[0]] && d1.bestEffort == d.bestEffort[1..] && d1.threshold == d.threshold
      else
        Gave(o, BestEffort) == [] && d1.bestEffort == d.bestEffort && d1.threshold == d.threshold
  {
  }

  lemma TakeOneMore(q: seq<Event>, n: nat)
    requires q != [] && n <= |q| - 1
    ensures [q[0]] + q[1..][..n] == q[..n + 1]
  {
  }

  /** How much of BEST_EFFORT that many pulls serve. */
  function ServedBy(d: Lanes, pulls: nat, now: real): nat {
    Min(pulls, Eligible(d.bestEffort, now, d.threshold))
  }

  lemma FeedStep(d: Lanes, op: Op, now: real, pulls: nat)
    requires PullsOrFeeds(op, now) && !op.PullNormal?
    ensures Gave(Do(d, op).1, BestEffort) == [] && Do(d, op).0.bestEffort == d.bestEffort
    ensures ServedBy(Do(d, op).0, pulls, now) == ServedBy(d, pulls, now)
  {
  }

  lemma PullServes(d: Lanes, now: real, pulls: nat)
    ensures var (d1, o) := PopNormal(d, now);
      && ServedBy(d1, pulls, now) <= |d1.bestEffort| && ServedBy(d, pulls + 1, now) <= |d.bestEffort|
      && Gave(o, BestEffort) + d1.bestEffort[..ServedBy(d1, pulls, now)] == d.bestEffort[..ServedBy(d, pulls + 1, now)]
  {
    var (d1, o) := PopNormal(d, now);
    EligibleFits(d.bestEffort, now, d.threshold);
    EligibleFits(d1.bestEffort, now, d1.threshold);
    PullStep(d, now);
    if Eligible(d.bestEffort, now, d.threshold) > 0 {
      TakeOneMore(d.bestEffort, ServedBy(d1, pulls, now));
    }
  }

  /** Anti-starvation, exactly: NORMAL pulls at one time, whatever NORMAL and CRITICAL receive or
      deliver meanwhile, serve of BEST_EFFORT exactly its eligible events from the head on, as many as
      there are pulls. */
  lemma {:induction false} EligiblePrefixIsServed(d: Lanes, ops: seq<Op>, now: real)
    requires forall i :: 0 <= i < |ops| ==> PullsOrFeeds(ops[i], now)
    ensures ServedBy(d, Pulls(ops), now) <= |d.bestEffort|
    ensures FromLane(Outs(d, ops), BestEffort) == d.bestEffort[..ServedBy(d, Pulls(ops), now)]
    decreases |ops|
  {
    EligibleFits(d.bestEffort, now, d.threshold);
    if ops != [] {
      var (d1, o) := Do(d, ops[0]);
      assert PullsOrFeeds(ops[0], now);
      EligiblePrefixIsServed(d1, ops[1..], now);
      GaveIsFromLane(o, BestEffort);
      FromLaneConcat(AsSeq(o), Outs(d1, ops[1..]), BestEffort);
      if ops[0].PullNormal? {
        PullServes(d, now, Pulls(ops[1..]));
      } else {
        FeedStep(d, ops[0], now, Pulls(ops[1..]));
        assert [] + FromLane(Outs(d1, ops[1..]), BestEffort) == FromLane(Outs(d1, ops[1..]), BestEffort);
      }
    }
  }

  lemma {:induction false} EligibleIff(q: seq<Event>, k: nat, now: real, threshold: real)
    requires k < |q|
    ensures Eligible(q, now, threshold) > k <==> forall i :: 0 <= i <= k ==> MayPromote(q[i], now, threshold)
  {
    if k > 0 && MayPromote(q[0], now, threshold) {
      EligibleIff(q[1..], k - 1, now, threshold);
      assert forall i :: 0 < i <= k ==> q[i] == q[1..][i - 1];
    }
  }

  // ---- Whether an event is served, at changing times ----

  /** NORMAL is pulled between two times; anything may be added anywhere, and the other lanes may
      be served directly. */
  predicate Timely(op: Op, since: real, until: real) {
    match op
    case Enqueue(_, _) => true
    case PullNormal(now) => since <= now <= until
    case PullAny(_) => false
    case PullLane(p) => p != BestEffort
  }

  predicate AllTimely(ops: seq<Op>, since: real, until: real) {
    forall i :: 0 <= i < |ops| ==> Timely(ops[i], since, until)
  }

  lemma {:induction false} EligibleSnoc(q: seq<Event>, e: Event, now: real, threshold: real)
    ensures Eligible(q, now, threshold) <= Eligible(q + [e], now, threshold)
  {
    if q != [] {
      EligibleSnoc(q[1..], e, now, threshold);
      assert (q + [e])[1..] == q[1..] + [e];
    }
  }

  /** What one step gives of BEST_EFFORT, and what stays eligible. */
  lemma TimelyStep(d: Lanes, op: Op, since: real, until: real)
    requires Timely(op, since, until)
    ensures var (d1, o) := Do(d, op);
      var turn := op.PullNormal? && Eligible(d.bestEffort, since, d.threshold) > 0;
      && d1.threshold == d.threshold
      && Eligible(d.bestEffort, since, d.threshold)
         <= Eligible(d1.bestEffort, since, d.threshold) + |Gave(o, BestEffort)|
      && (turn ==> |Gave(o, BestEffort)| == 1)
      && forall e :: e in Gave(o, BestEffort) ==> MayPromote(e, until, d.threshold)
  {
    if op.Enqueue? {
      EligibleSnoc(d.bestEffort, op.e, since, d.threshold);
    }
  }

  lemma {:induction false} EligibleAreServed(d: Lanes, ops: seq<Op>, since: real, until: real)
    requires AllTimely(ops, since, until)
    ensures Min(Pulls(ops), Eligible(d.bestEffort, since, d.threshold)) <= |FromLane(Outs(d, ops), BestEffort)|
    ensures forall e :: e in FromLane(Outs(d, ops), BestEffort) ==> MayPromote(e, until, d.threshold)
    decreases |ops|
  {
    if ops != [] {
      var (d1, o) := Do(d, ops[0]);
      assert Timely(ops[0], since, until);
      TimelyStep(d, ops[0], since, until);
      EligibleAreServed(d1, ops[1..], since, until);
      GaveIsFromLane(o, BestEffort);
      FromLaneConcat(AsSeq(o), Outs(d1, ops[1..]), BestEffort);
    }
  }

  lemma ServedAreFirst(d: Lanes, ops: seq<Op>, i: nat)
    requires i < |FromLane(Outs(d, ops), BestEffort)| && i < |d.bestEffort|
    ensures d.bestEffort[i] in FromLane(Outs(d, ops), BestEffort)
  {
    var served := FromLane(Outs(d, ops), BestEffort);
    DeliveriesAreAShuffle(d, ops, BestEffort);
    assert (served + LaneOf(Final(d, ops), BestEffort))[i] == (d.bestEffort + Entered(ops, BestEffort))[i];
    assert served[i] in served;
  }

  /** So the bound holds if and only if the first events are all stateless and aged: given
      enough pulls between two times, whatever else arrives or is served meanwhile, the event
      at position `k` is served if each up to it may be promoted at the first, and only if each
      may be at the last. */
  lemma ServedIffAllMayBePromoted(d: Lanes, ops: seq<Op>, since: real, until: real, k: nat)
    requires AllTimely(ops, since, until)
    requires k < |d.bestEffort| && k < Pulls(ops)
    ensures (forall i :: 0 <= i <= k ==> MayPromote(d.bestEffort[i], since, d.threshold)) ==>
      |FromLane(Outs(d, ops), BestEffort)| > k
    ensures |FromLane(Outs(d, ops), BestEffort)| > k ==>
      forall i :: 0 <= i <= k ==> MayPromote(d.bestEffort[i], until, d.threshold)
  {
    EligibleAreServed(d, ops, since, until);
    EligibleIff(d.bestEffort, k, since, d.threshold);
    if |FromLane(Outs(d, ops), BestEffort)| > k {
      forall i | 0 <= i <= k
        ensures MayPromote(d.bestEffort[i], until, d.threshold)
      {
        ServedAreFirst(d, ops, i);
      }
    }
  }

  function PullsAt(now: real, n: nat): seq<Op> {
    if n == 0 then [] else [PullNormal(now)] + PullsAt(now, n - 1)
  }

  lemma {:induction false} PullsAtAreTimely(now: real, n: nat)
    ensures Pulls(PullsAt(now, n)) == n
    ensures AllTimely(PullsAt(now, n), now, now)
  {
    if n > 0 {
      PullsAtAreTimely(now, n - 1);
    }
  }

  /** Sooner or later any number of events have all aged. */
  lemma {:induction false} AllAge(q: seq<Event>, threshold: real, now: real) returns (late: real)
    ensures now <= late && forall i :: 0 <= i < |q| ==> Aged(q[i], late, threshold)
  {
    late := now;
    if q != [] {
      late := AllAge(q[1..], threshold, now);
      var own := RefTime(q[0]) + threshold + 1.0;
      late := if late < own then own else late;
    }
  }

  /** The course of NORMAL pulls serves the event at position `k`. */
  predicate Reaches(d: Lanes, k: nat, ops: seq<Op>, since: real, until: real) {
    AllTimely(ops, since, until) && |FromLane(Outs(d, ops), BestEffort)| > k
  }

  /** However long one waits: a BEST_EFFORT event is served by some course of NORMAL pulls if and
      only if neither it nor any before it is stateful. */
  lemma EverServedIff(d: Lanes, k: nat, now: real)
    requires k < |d.bestEffort|
    ensures (exists ops, until :: Reaches(d, k, ops, now, until)) <==>
      forall i :: 0 <= i <= k ==> IsStateless(d.bestEffort[i])
  {
    if ops, until :| Reaches(d, k, ops, now, until) {
      EligibleAreServed(d, ops, now, until);
      forall i | 0 <= i <= k
        ensures IsStateless(d.bestEffort[i])
      {
        ServedAreFirst(d, ops, i);
      }
    }
    if forall i :: 0 <= i <= k ==> IsStateless(d.bestEffort[i]) {
      var late := AllAge(d.bestEffort, d.threshold, now);
      var ops := PullsAt(late, k + 1);
      PullsAtAreTimely(late, k + 1);
      ServedIffAllMayBePromoted(d, ops, late, late, k);
      assert Reaches(d, k, ops, now, late);
    }
  }

  /** In particular, a stateless head is needed: a head that may not be promoted is never passed,
      however long NORMAL is pulled, and nothing behind it is served. */
  lemma {:induction false} StatefulHeadBlocks(d: Lanes, ops: seq<Op>)
    requires d.bestEffort != [] && !IsStateless(d.bestEffort[0])
    requires forall i :: 0 <= i < |ops| ==> ops[i].Enqueue? || ops[i].PullNormal?
    ensures FromLane(Outs(d, ops), BestEffort) == []
    ensures d.bestEffort <= Final(d, ops).bestEffort
    decreases |ops|
  {
    if ops != [] {
      var (d1, o) := Do(d, ops[0]);
      assert ops[0].Enqueue? || ops[0].PullNormal?;
      StatefulHeadBlocks(d1, ops[1..]);
      GaveIsFromLane(o, BestEffort);
      FromLaneConcat(AsSeq(o), Outs(d1, ops[1..]), BestEffort);
    }
  }
}
