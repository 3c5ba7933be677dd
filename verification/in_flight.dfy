/** The buffer of events that a worker has taken and not yet acknowledged.

    The source keeps a dictionary, which remembers insertion order and lets the
    recovery sweep visit entries in it; here it is a sequence of entries whose
    identifiers are distinct. */
module InFlight {
  import opened Contracts

  datatype Entry = Entry(event: Event, start: real)

  datatype Tracker = Tracker(inFlight: seq<Entry>, tracked: nat, acked: nat, recovered: nat, timeouts: nat)

  const NEW_TRACKER := Tracker([], 0, 0, 0, 0)

  // ---- The ordered dictionary ----

  function Events(es: seq<Entry>): (r: seq<Event>)
    ensures |r| == |es|
    ensures forall i :: 0 <= i < |es| ==> r[i] == es[i].event
  {
    seq(|es|, i requires 0 <= i < |es| => es[i].event)
  }

  function Keys(es: seq<Entry>): (ids: seq<EventId>)
    ensures |ids| == |es|
    ensures forall i :: 0 <= i < |es| ==> ids[i] == es[i].event.id
  {
    Ids(Events(es))
  }

  predicate Distinct(es: seq<Entry>) {
    forall i, j :: 0 <= i < j < |es| ==> es[i].event.id != es[j].event.id
  }

  /** The position of an identifier, or the length when it is absent. */
  function Find(es: seq<Entry>, id: EventId): (i: nat)
    ensures i <= |es|
    ensures i < |es| ==> es[i].event.id == id
    ensures forall j :: 0 <= j < i ==> es[j].event.id != id
  {
    if es == [] || es[0].event.id == id then 0 else 1 + Find(es[1..], id)
  }

  predicate Has(es: seq<Entry>, id: EventId) {
    Find(es, id) < |es|
  }

  /** Assignment to a key keeps the key's place, or appends a new one. */
  function Put(es: seq<Entry>, e: Entry): seq<Entry> {
    if Has(es, e.event.id) then es[Find(es, e.event.id) := e] else es + [e]
  }

  function Remove(es: seq<Entry>, id: EventId): seq<Entry> {
    var i := Find(es, id);
    if i < |es| then es[..i] + es[i + 1..] else es
  }

  function Filter(es: seq<Entry>, p: Entry -> bool): seq<Entry> {
    if es == [] then []
    else Filter(es[..|es| - 1], p) + if p(es[|es| - 1]) then [es[|es| - 1]] else []
  }

  function Without(es: seq<Entry>, ids: seq<EventId>): seq<Entry> {
    Filter(es, (e: Entry) => e.event.id !in ids)
  }

  /** The source's test is a strict comparison of the elapsed time. */
  predicate TimedOut(e: Entry, now: real, timeout: real) {
    now - e.start > timeout
  }

  function Expired(es: seq<Entry>, now: real, timeout: real): seq<Entry> {
    Filter(es, (e: Entry) => TimedOut(e, now, timeout))
  }

  function Alive(es: seq<Entry>, now: real, timeout: real): seq<Entry> {
    Filter(es, (e: Entry) => !TimedOut(e, now, timeout))
  }

  // ---- The operations ----

  function Track(t: Tracker, e: Event, now: real): Tracker {
    t.(inFlight := Put(t.inFlight, Entry(e, now)), tracked := t.tracked + 1)
  }

  function Ack(t: Tracker, id: EventId): Tracker {
    if Has(t.inFlight, id) then t.(inFlight := Remove(t.inFlight, id), acked := t.acked + 1) else t
  }

  /** `nack` with `requeue`, when the CRITICAL queue takes the event. */
  function Nack(t: Tracker, id: EventId): Tracker {
    if Has(t.inFlight, id) then t.(inFlight := Remove(t.inFlight, id), recovered := t.recovered + 1) else t
  }

  /** What the sweep does to an event before it goes back to CRITICAL. */
  function Recover(e: Event, now: real): Event {
    e.(priority := Some(Critical), retries := Bumped(e.retries), recoveredAt := Some(now))
  }

  /** What a recovered event is: bound for CRITICAL, dated, with one more retry noted, and
      otherwise as it was. */
  predicate Recovered(was: Event, e: Event, now: real) {
    && e.priority == Some(Critical) && e.recoveredAt == Some(now)
    && e.retries == Plus(was.retries, 1)
    && SameOrigin(was, e) && e.promotedAt == was.promotedAt
  }

  lemma RecoverIsRecovered(e: Event, now: real)
    requires Counts(e.retries)
    ensures Recovered(e, Recover(e, now), now)
  {
    PlusOne(e.retries);
  }

  function RecoverAll(es: seq<Entry>, now: real): (r: seq<Event>)
    ensures |r| == |es|
    ensures forall i :: 0 <= i < |es| ==> r[i] == Recover(es[i].event, now)
  {
    seq(|es|, i requires 0 <= i < |es| => Recover(es[i].event, now))
  }

  /** How many entries from the front have a retry note that counts. */
  function Countable(x: seq<Entry>): (n: nat)
    ensures n <= |x|
  {
    if x == [] || !Counts(x[0].event.retries) then 0 else 1 + Countable(x[1..])
  }

  /** How many of `n` timed-out entries a sweep pops when it can requeue `reach` of them before
      it raises: one more than it requeues. */
  function Popped(n: nat, reach: nat): nat {
    if n <= reach then n else reach + 1
  }

  /** What a sweep pops: up to and with the first entry whose retry note does not count, where
      it raises. */
  function Struck(t: Tracker, now: real, timeout: real): seq<Entry> {
    var x := Expired(t.inFlight, now, timeout);
    x[..Popped(|x|, Countable(x))]
  }

  /** The sweep into an unbounded CRITICAL queue. */
  function Sweep(t: Tracker, now: real, timeout: real): Tracker {
    var n := |Struck(t, now, timeout)|;
    t.(inFlight := Without(t.inFlight, Keys(Struck(t, now, timeout))), recovered := t.recovered + n,
       timeouts := t.timeouts + n)
  }

  function Swept(t: Tracker, now: real, timeout: real): seq<Event> {
    var x := Expired(t.inFlight, now, timeout);
    RecoverAll(x[..Countable(x)], now)
  }

  /** The entry, if any, that was popped and then not requeued. */
  function Dropped(t: Tracker, now: real, timeout: real): seq<Entry> {
    var x := Expired(t.inFlight, now, timeout);
    x[Countable(x)..Popped(|x|, Countable(x))]
  }

  /** Nothing stops the sweep: every timed-out entry can be counted. */
  predicate Completes(t: Tracker, now: real, timeout: real) {
    var x := Expired(t.inFlight, now, timeout);
    Countable(x) == |x|
  }

  function TrackAll(t: Tracker, es: seq<Event>, now: real): Tracker {
    if es == [] then t else Track(TrackAll(t, es[..|es| - 1], now), es[|es| - 1], now)
  }

  function AckAll(t: Tracker, es: seq<Event>): Tracker {
    if es == [] then t else Ack(AckAll(t, es[..|es| - 1]), es[|es| - 1].id)
  }

  // ---- Laws of the ordered dictionary ----

  lemma {:induction false} FilterMembers(es: seq<Entry>, p: Entry -> bool)
    ensures forall e :: e in Filter(es, p) <==> e in es && p(e)
  {
    if es != [] {
      var n := |es| - 1;
      FilterMembers(es[..n], p);
      assert es == es[..n] + [es[n]];
    }
  }

  lemma {:induction false} FilterConcat(a: seq<Entry>, b: seq<Entry>, p: Entry -> bool)
    ensures Filter(a + b, p) == Filter(a, p) + Filter(b, p)
  {
    if b == [] {
      assert a + b == a;
    } else {
      var n := |b| - 1;
      assert (a + b)[..|a + b| - 1] == a + b[..n];
      FilterConcat(a, b[..n], p);
    }
  }

  lemma {:induction false} FilterAgree(es: seq<Entry>, p: Entry -> bool, q: Entry -> bool)
    requires forall e :: e in es ==> p(e) == q(e)
    ensures Filter(es, p) == Filter(es, q)
  {
    if es != [] {
      FilterAgree(es[..|es| - 1], p, q);
    }
  }

  lemma {:induction false} FilterAll(es: seq<Entry>, p: Entry -> bool)
    requires forall e :: e in es ==> p(e)
    ensures Filter(es, p) == es
  {
    if es != [] {
      FilterAll(es[..|es| - 1], p);
      assert es == es[..|es| - 1] + [es[|es| - 1]];
    }
  }

  lemma FilterNone(e: Entry, p: Entry -> bool)
    requires !p(e)
    ensures Filter([e], p) == []
  {
    assert [e][..0] == [];
  }

  lemma {:induction false} FilterTwice(es: seq<Entry>, p: Entry -> bool, q: Entry -> bool)
    ensures Filter(Filter(es, p), q) == Filter(es, (e: Entry) => p(e) && q(e))
  {
    if es != [] {
      var n := |es| - 1;
      FilterTwice(es[..n], p, q);
      FilterConcat(Filter(es[..n], p), if p(es[n]) then [es[n]] else [], q);
    }
  }

  lemma {:induction false} FilterDistinct(es: seq<Entry>, p: Entry -> bool)
    requires Distinct(es)
    ensures Distinct(Filter(es, p))
  {
    if es != [] {
      var n := |es| - 1;
      FilterDistinct(es[..n], p);
      FilterMembers(es[..n], p);
      DistinctAround(es, n);
    }
  }

  lemma KeysConcat(a: seq<Entry>, b: seq<Entry>)
    ensures Keys(a + b) == Keys(a) + Keys(b)
  {
  }

  /** How many entries carry an identifier. */
  function KeyCopies(es: seq<Entry>, id: EventId): nat {
    if es == [] then 0 else KeyCopies(es[..|es| - 1], id) + if es[|es| - 1].event.id == id then 1 else 0
  }

  lemma {:induction false} KeyCopiesConcat(a: seq<Entry>, b: seq<Entry>, id: EventId)
    ensures KeyCopies(a + b, id) == KeyCopies(a, id) + KeyCopies(b, id)
  {
    if b == [] {
      assert a + b == a;
    } else {
      assert (a + b)[..|a + b| - 1] == a + b[..|b| - 1];
      KeyCopiesConcat(a, b[..|b| - 1], id);
    }
  }

  lemma {:induction false} KeyCopiesMember(es: seq<Entry>, id: EventId)
    ensures KeyCopies(es, id) > 0 <==> id in Keys(es)
  {
    if es != [] {
      KeyCopiesMember(es[..|es| - 1], id);
      KeysConcat(es[..|es| - 1], [es[|es| - 1]]);
      assert es == es[..|es| - 1] + [es[|es| - 1]];
    }
  }

  lemma FilterLastCopies(es: seq<Entry>, p: Entry -> bool, id: EventId)
    requires es != []
    ensures var last := es[|es| - 1];
      KeyCopies(Filter(es, p), id)
      == KeyCopies(Filter(es[..|es| - 1], p), id) + if p(last) && last.event.id == id then 1 else 0
  {
    var last := es[|es| - 1];
    var more := if p(last) then [last] else [];
    KeyCopiesConcat(Filter(es[..|es| - 1], p), more, id);
    assert [last][..0] == [];
  }

  /** Splitting by a test loses no key and duplicates none. */
  lemma {:induction false} FilterPartition(es: seq<Entry>, p: Entry -> bool, q: Entry -> bool, id: EventId)
    requires forall e :: e in es ==> q(e) == !p(e)
    ensures KeyCopies(es, id) == KeyCopies(Filter(es, p), id) + KeyCopies(Filter(es, q), id)
    ensures |es| == |Filter(es, p)| + |Filter(es, q)|
  {
    if es != [] {
      var n := |es| - 1;
      FilterPartition(es[..n], p, q, id);
      FilterLastCopies(es, p, id);
      FilterLastCopies(es, q, id);
      assert es[n] in es;
    }
  }

  lemma HasKey(es: seq<Entry>, id: EventId)
    ensures Has(es, id) <==> id in Keys(es)
    ensures id in Keys(es) <==> exists e :: e in es && e.event.id == id
  {
    if id in Keys(es) {
      var i :| 0 <= i < |es| && Keys(es)[i] == id;
      assert es[i] in es;
    }
    if Has(es, id) {
      assert Keys(es)[Find(es, id)] == id;
    }
    forall e | e in es && e.event.id == id
      ensures id in Keys(es)
    {
      var i :| 0 <= i < |es| && es[i] == e;
      assert Keys(es)[i] == id;
    }
  }

  lemma FilterSplit(a: seq<Entry>, e: Entry, b: seq<Entry>, p: Entry -> bool)
    requires (forall x :: x in a ==> p(x)) && !p(e) && (forall x :: x in b ==> p(x))
    ensures Filter(a + ([e] + b), p) == a + b
  {
    FilterAll(a, p);
    FilterAll(b, p);
    assert Filter([e] + b, p) == b by {
      FilterConcat([e], b, p);
      FilterNone(e, p);
      assert [] + b == b;
    }
    FilterConcat(a, [e] + b, p);
  }

  lemma DistinctAround(es: seq<Entry>, i: nat)
    requires Distinct(es) && i < |es|
    ensures forall x :: x in es[..i] ==> x.event.id != es[i].event.id
    ensures forall x :: x in es[i + 1..] ==> x.event.id != es[i].event.id
  {
  }

  lemma SplitAt(es: seq<Entry>, i: nat)
    requires i < |es|
    ensures es == es[..i] + ([es[i]] + es[i + 1..])
  {
  }

  lemma RemoveFound(es: seq<Entry>, i: nat, p: Entry -> bool)
    requires Distinct(es) && i < |es| && !p(es[i])
    requires forall e: Entry :: e.event.id != es[i].event.id ==> p(e)
    ensures Filter(es, p) == es[..i] + es[i + 1..]
  {
    assert (forall x :: x in es[..i] ==> p(x)) && (forall x :: x in es[i + 1..] ==> p(x)) by {
      DistinctAround(es, i);
    }
    FilterSplit(es[..i], es[i], es[i + 1..], p);
    SplitAt(es, i);
  }

  /** Deleting a key is filtering it out, because keys are distinct. */
  lemma RemoveIsFilter(es: seq<Entry>, id: EventId)
    requires Distinct(es)
    ensures Remove(es, id) == Filter(es, (e: Entry) => e.event.id != id)
    ensures Distinct(Remove(es, id))
  {
    var p := (e: Entry) => e.event.id != id;
    assert Remove(es, id) == Filter(es, p) by {
      if Has(es, id) {
        RemoveFound(es, Find(es, id), p);
      } else {
        FilterAll(es, p);
      }
    }
    FilterDistinct(es, p);
  }

  lemma RemoveFromWithout(es: seq<Entry>, ids: seq<EventId>, id: EventId)
    requires Distinct(es)
    ensures Remove(Without(es, ids), id) == Without(es, ids + [id])
  {
    var p := (e: Entry) => e.event.id !in ids;
    var q := (e: Entry) => e.event.id != id;
    FilterDistinct(es, p);
    RemoveIsFilter(Without(es, ids), id);
    FilterTwice(es, p, q);
    FilterAgree(es, (e: Entry) => p(e) && q(e), (e: Entry) => e.event.id !in ids + [id]);
  }

  lemma WithoutNone(es: seq<Entry>)
    ensures Without(es, []) == es
  {
    FilterAll(es, (e: Entry) => e.event.id !in []);
  }

  /** Dropping the expired keys leaves exactly the entries that have not timed out. */
  lemma WithoutExpired(es: seq<Entry>, now: real, timeout: real)
    requires Distinct(es)
    ensures Without(es, Keys(Expired(es, now, timeout))) == Alive(es, now, timeout)
  {
    var x := Expired(es, now, timeout);
    FilterMembers(es, (e: Entry) => TimedOut(e, now, timeout));
    forall e | e in es
      ensures (e.event.id !in Keys(x)) == !TimedOut(e, now, timeout)
    {
      HasKey(x, e.event.id);
      if e.event.id in Keys(x) {
        var f :| f in x && f.event.id == e.event.id;
        var i :| 0 <= i < |es| && es[i] == e;
        var j :| 0 <= j < |es| && es[j] == f;
        assert i == j;
      }
    }
    FilterAgree(es, (e: Entry) => e.event.id !in Keys(x), (e: Entry) => !TimedOut(e, now, timeout));
  }

  lemma {:induction false} AckAllIsWithout(t: Tracker, es: seq<Event>)
    requires Distinct(t.inFlight)
    ensures AckAll(t, es).inFlight == Without(t.inFlight, Ids(es))
    ensures AckAll(t, es).acked + |AckAll(t, es).inFlight| == t.acked + |t.inFlight|
    ensures AckAll(t, es).tracked == t.tracked && AckAll(t, es).recovered == t.recovered
    ensures AckAll(t, es).timeouts == t.timeouts
  {
    if es == [] {
      WithoutNone(t.inFlight);
    } else {
      var n := |es| - 1;
      AckAllIsWithout(t, es[..n]);
      RemoveFromWithout(t.inFlight, Ids(es[..n]), es[n].id);
      assert Ids(es) == Ids(es[..n]) + [es[n].id];
      if !Has(AckAll(t, es[..n]).inFlight, es[n].id) {
        assert Remove(AckAll(t, es[..n]).inFlight, es[n].id) == AckAll(t, es[..n]).inFlight;
      }
    }
  }

  /** Assigning a key puts the entry in the key's place, or last, and leaves the others as they were. */
  lemma PutIsAssignment(es: seq<Entry>, e: Entry)
    requires Distinct(es)
    ensures var r, i := Put(es, e), Find(es, e.event.id);
      && |r| == (if i < |es| then |es| else |es| + 1) && Distinct(r)
      && r[i] == e && forall j :: 0 <= j < |es| && j != i ==> r[j] == es[j]
  {
  }

  lemma PutIsFound(es: seq<Entry>, e: Entry)
    requires Distinct(es)
    ensures Has(Put(es, e), e.event.id) && Put(es, e)[Find(Put(es, e), e.event.id)] == e
  {
    var r, i := Put(es, e), Find(es, e.event.id);
    PutIsAssignment(es, e);
    var k := Find(r, e.event.id);
    assert r[i].event.id == e.event.id;
    assert k <= i;
  }

  /** Assigning a key loses what stood there: tracking keeps every entry if and only if the
      identifier is not in flight, or only with this very entry. */
  lemma TrackKeepsAllIff(t: Tracker, e: Event, now: real)
    requires Distinct(t.inFlight)
    ensures (forall x :: x in t.inFlight ==> x in Track(t, e, now).inFlight) <==>
      !Has(t.inFlight, e.id) || t.inFlight[Find(t.inFlight, e.id)] == Entry(e, now)
  {
    var es, i := t.inFlight, Find(t.inFlight, e.id);
    var after := Track(t, e, now).inFlight;
    if Has(es, e.id) {
      forall x | x in es && x != es[i]
        ensures x in after
      {
        var j :| 0 <= j < |es| && es[j] == x;
        assert after[j] == x;
      }
      assert after[i] == Entry(e, now);
      if es[i] != Entry(e, now) {
        assert es[i] in es;
        assert forall j :: 0 <= j < |after| ==> after[j] != es[i];
      }
    }
  }

  lemma {:induction false} EventsCopies(es: seq<Entry>, id: EventId)
    ensures Copies(Events(es), id) == KeyCopies(es, id)
  {
    if es != [] {
      EventsCopies(es[..|es| - 1], id);
      assert Events(es)[..|es| - 1] == Events(es[..|es| - 1]);
    }
  }

  lemma {:induction false} RecoveredCopies(es: seq<Entry>, now: real, id: EventId)
    ensures Copies(RecoverAll(es, now), id) == KeyCopies(es, id)
  {
    if es != [] {
      var n := |es| - 1;
      RecoveredCopies(es[..n], now, id);
      assert RecoverAll(es, now)[..n] == RecoverAll(es[..n], now);
    }
  }

  // ---- The sweep, entry by entry ----

  /** What popping the k-th timed-out key does when the ones before it are gone. */
  lemma SweepStep(es: seq<Entry>, now: real, timeout: real, k: nat)
    requires Distinct(es) && k < |Expired(es, now, timeout)|
    ensures
      var x := Expired(es, now, timeout);
      var rest := Without(es, Keys(x[..k]));
      && Distinct(rest)
      && Has(rest, x[k].event.id)
      && rest[Find(rest, x[k].event.id)] == x[k]
      && Remove(rest, x[k].event.id) == Without(es, Keys(x[..k + 1]))
      && RecoverAll(x[..k + 1], now) == RecoverAll(x[..k], now) + [Recover(x[k].event, now)]
  {
    var x := Expired(es, now, timeout);
    var rest := Without(es, Keys(x[..k]));
    FilterMembers(es, (e: Entry) => TimedOut(e, now, timeout));
    FilterMembers(es, (e: Entry) => e.event.id !in Keys(x[..k]));
    FilterDistinct(es, (e: Entry) => TimedOut(e, now, timeout));
    FilterDistinct(es, (e: Entry) => e.event.id !in Keys(x[..k]));
    assert x[k] in x && x[k] in es;
    assert x[k] in rest;
    HasKey(rest, x[k].event.id);
    RemoveFromWithout(es, Keys(x[..k]), x[k].event.id);
    assert Keys(x[..k + 1]) == Keys(x[..k]) + [x[k].event.id];
  }

  lemma KeyCopiesOne(e: Entry, id: EventId)
    ensures KeyCopies([e], id) == if e.event.id == id then 1 else 0
  {
    assert [e][..0] == [];
  }

  lemma DroppedCopies(es: seq<Entry>, i: nat, id: EventId)
    requires i < |es|
    ensures KeyCopies(es[..i] + es[i + 1..], id) + (if es[i].event.id == id then 1 else 0) == KeyCopies(es, id)
  {
    var a, b := es[..i], es[i + 1..];
    assert es == a + ([es[i]] + b);
    KeyCopiesConcat(a, [es[i]] + b, id);
    KeyCopiesConcat([es[i]], b, id);
    KeyCopiesConcat(a, b, id);
    KeyCopiesOne(es[i], id);
  }

  /** Whatever a sweep puts back has been in flight for longer than the timeout and is recovered. */
  lemma SweptAreRecovered(t: Tracker, now: real, timeout: real)
    ensures var x, back := Expired(t.inFlight, now, timeout), Swept(t, now, timeout);
      && |back| <= |x|
      && forall i :: 0 <= i < |back| ==> now - x[i].start > timeout && Recovered(x[i].event, back[i], now)
  {
    var x, back := Expired(t.inFlight, now, timeout), Swept(t, now, timeout);
    FilterMembers(t.inFlight, (e: Entry) => TimedOut(e, now, timeout));
    CountableStops(x);
    forall i | 0 <= i < |back|
      ensures now - x[i].start > timeout && Recovered(x[i].event, back[i], now)
    {
      assert x[i] in x;
      RecoverIsRecovered(x[i].event, now);
    }
  }

  /** Popping the first `k` timed-out entries takes exactly those. */
  lemma {:induction false} PoppingTakes(es: seq<Entry>, now: real, timeout: real, k: nat, id: EventId)
    requires Distinct(es) && k <= |Expired(es, now, timeout)|
    ensures var x := Expired(es, now, timeout);
      && KeyCopies(Without(es, Keys(x[..k])), id) + KeyCopies(x[..k], id) == KeyCopies(es, id)
      && |Without(es, Keys(x[..k]))| + k == |es|
  {
    var x := Expired(es, now, timeout);
    if k == 0 {
      WithoutNone(es);
      assert x[..0] == [];
    } else {
      PoppingTakes(es, now, timeout, k - 1, id);
      SweepStep(es, now, timeout, k - 1);
      var rest := Without(es, Keys(x[..k - 1]));
      DroppedCopies(rest, Find(rest, x[k - 1].event.id), id);
      assert x[..k][..k - 1] == x[..k - 1];
    }
  }

  /** A sweep moves keys: what stays, what is requeued and what a raise drops is what was there. */
  lemma SweepConserves(t: Tracker, now: real, timeout: real, id: EventId)
    requires Distinct(t.inFlight)
    ensures KeyCopies(Sweep(t, now, timeout).inFlight, id) + Copies(Swept(t, now, timeout), id)
            + KeyCopies(Dropped(t, now, timeout), id)
         == KeyCopies(t.inFlight, id)
    ensures |Sweep(t, now, timeout).inFlight| + |Struck(t, now, timeout)| == |t.inFlight|
  {
    var x := Expired(t.inFlight, now, timeout);
    var n, m := Countable(x), Popped(|x|, Countable(x));
    PoppingTakes(t.inFlight, now, timeout, m, id);
    RecoveredCopies(x[..n], now, id);
    assert x[..m] == x[..n] + x[n..m];
    KeyCopiesConcat(x[..n], x[n..m], id);
  }

  /** What is dropped had timed out and cannot be counted. */
  lemma {:induction false} CountableStops(x: seq<Entry>)
    ensures forall i :: 0 <= i < Countable(x) ==> Counts(x[i].event.retries)
    ensures Countable(x) < |x| ==> !Counts(x[Countable(x)].event.retries)
  {
    if x != [] && Counts(x[0].event.retries) {
      CountableStops(x[1..]);
      forall i | 0 <= i < Countable(x)
        ensures Counts(x[i].event.retries)
      {
        if i > 0 {
          assert x[1..][i - 1] == x[i];
        }
      }
    }
  }

  lemma CountableAt(x: seq<Entry>, k: nat)
    requires k <= Countable(x) && k < |x|
    ensures Counts(x[k].event.retries) <==> k < Countable(x)
  {
    CountableStops(x);
  }

  lemma DroppedDoesNotCount(t: Tracker, now: real, timeout: real)
    ensures forall i :: 0 <= i < |Dropped(t, now, timeout)| ==>
      Dropped(t, now, timeout)[i] in t.inFlight && !Counts(Dropped(t, now, timeout)[i].event.retries)
  {
    var x := Expired(t.inFlight, now, timeout);
    CountableStops(x);
    FilterMembers(t.inFlight, (e: Entry) => TimedOut(e, now, timeout));
    if Countable(x) < |x| {
      assert x[Countable(x)] in x;
    }
  }

  /** A sweep that completes leaves exactly what has not timed out. */
  lemma CompletedSweep(t: Tracker, now: real, timeout: real)
    requires Distinct(t.inFlight) && Completes(t, now, timeout)
    ensures Sweep(t, now, timeout).inFlight == Alive(t.inFlight, now, timeout)
    ensures Struck(t, now, timeout) == Expired(t.inFlight, now, timeout) && Dropped(t, now, timeout) == []
    ensures Swept(t, now, timeout) == RecoverAll(Expired(t.inFlight, now, timeout), now)
  {
    var x := Expired(t.inFlight, now, timeout);
    assert x[..|x|] == x;
    WithoutExpired(t.inFlight, now, timeout);
  }

  // ---- When a sweep loses something ----

  /** A sweep that can requeue only `reach` of the timed-out entries, whatever stops it, keeps
      every event exactly when it reaches them all: the next is popped and then lost. */
  lemma KeepsAllIffReached(es: seq<Entry>, now: real, timeout: real, reach: nat)
    requires Distinct(es)
    ensures
      var x := Expired(es, now, timeout);
      var kept := Without(es, Keys(x[..Popped(|x|, reach)]));
      var requeued := if |x| <= reach then x else x[..reach];
      (forall id :: id in Keys(es) ==> id in Keys(kept) || id in Keys(requeued)) <==> |x| <= reach
  {
    var x := Expired(es, now, timeout);
    var m := Popped(|x|, reach);
    var kept := Without(es, Keys(x[..m]));
    FilterMembers(es, (e: Entry) => TimedOut(e, now, timeout));
    FilterMembers(es, (e: Entry) => e.event.id !in Keys(x[..m]));
    FilterDistinct(es, (e: Entry) => TimedOut(e, now, timeout));
    if |x| <= reach {
      assert x[..m] == x;
      forall id | id in Keys(es)
        ensures id in Keys(kept) || id in Keys(x)
      {
        HasKey(es, id);
        HasKey(kept, id);
      }
    } else {
      var lost := x[reach];
      assert lost in x && lost in es;
      HasKey(es, lost.event.id);
      HasKey(kept, lost.event.id);
      assert Keys(x[..m])[reach] == lost.event.id;
      assert lost.event.id !in Keys(kept);
      assert lost.event.id !in Keys(x[..reach]);
    }
  }

  /** How many of the timed-out entries a sweep requeues into a queue with `room`. */
  function Reach(x: seq<Entry>, room: nat): nat {
    Min(Countable(x), room)
  }

  predicate AllCount(x: seq<Entry>) {
    forall i :: 0 <= i < |x| ==> Counts(x[i].event.retries)
  }

  lemma AllCountIff(x: seq<Entry>)
    ensures Countable(x) == |x| <==> AllCount(x)
  {
    CountableStops(x);
  }

  /** A sweep keeps every event if and only if the CRITICAL queue has room for all that timed
      out and each one's retry note can be counted: the first that fails is popped and lost. */
  lemma SweepLosesNothingIff(es: seq<Entry>, now: real, timeout: real, room: nat)
    requires Distinct(es)
    ensures
      var x := Expired(es, now, timeout);
      var reach := Reach(x, room);
      var kept := Without(es, Keys(x[..Popped(|x|, reach)]));
      var requeued := if |x| <= reach then x else x[..reach];
      (forall id :: id in Keys(es) ==> id in Keys(kept) || id in Keys(requeued)) <==> |x| <= room && AllCount(x)
  {
    var x := Expired(es, now, timeout);
    KeepsAllIffReached(es, now, timeout, Reach(x, room));
    AllCountIff(x);
  }
}
