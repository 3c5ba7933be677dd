/** The event contract shared by every stage of the pipeline: priority lanes,
    event types, events and the deterministic type-to-lane classification. */
module Contracts {

  datatype Option<+T> = None | Some(value: T)

  datatype Priority = Critical | Normal | BestEffort

  /** An event type after the source's `strip().upper()` normalisation. */
  datatype EventType = Order | Payment | CartAdd | InventoryUpdate | Click | PageView | Log | Unmapped(name: string)

  type EventId = string

  /** What a client may have put under a payload key that the pipeline counts with: nothing, a
      number (a boolean adds as 0 or 1), or anything else that JSON can hold. */
  datatype Note = Absent | Number(value: real) | Other

  /** Adding one to the note works; on anything else Python raises TypeError. */
  predicate Counts(n: Note): (b: bool)
    ensures b <==> n == Absent || n.Number?
  {
    n != Other
  }

  /** One more, starting from zero. Where nothing can be counted the caller has raised. */
  function Bumped(n: Note): Note {
    match n
    case Absent => Number(1.0)
    case Number(v) => Number(v + 1.0)
    case Other => Other
  }

  /** A note after `n` recoveries. */
  function Plus(note: Note, n: nat): Note {
    match note
    case Absent => if n == 0 then Absent else Number(n as real)
    case Number(v) => Number(v + n as real)
    case Other => Other
  }

  lemma PlusPlus(note: Note, m: nat, n: nat)
    ensures Plus(Plus(note, m), n) == Plus(note, m + n)
  {
  }

  lemma PlusOne(note: Note)
    ensures Plus(note, 0) == note
    ensures Counts(note) ==> Bumped(note) == Plus(note, 1)
  {
  }

  /** `retries`, `recoveredAt` and `promotedAt` are the payload keys
      `_retry_count`, `_recovered_at` and `_promoted_at`. */
  datatype Event = Event(
    id: EventId,
    eventType: EventType,
    timestamp: real,
    receivedAt: Option<real>,
    priority: Option<Priority>,
    retries: Note,
    recoveredAt: Option<real>,
    promotedAt: Option<real>)

  function Classify(t: EventType): Priority {
    match t
    case Order | Payment => Critical
    case CartAdd | InventoryUpdate => Normal
    case Click | PageView | Log | Unmapped(_) => BestEffort
  }

  function EnsurePriority(e: Event): Event {
    if e.priority == None then e.(priority := Some(Classify(e.eventType))) else e
  }

  /** The lane an event asks for: the priority it came with, or else its type's own. */
  function LaneFor(e: Event): Priority {
    if e.priority.Some? then e.priority.value else Classify(e.eventType)
  }

  function Min(a: int, b: int): int {
    if a < b then a else b
  }

  /** The instant an event's waiting time is measured from. */
  function RefTime(e: Event): real {
    if e.receivedAt.Some? then e.receivedAt.value else e.timestamp
  }

  /** The lanes by type: orders and payments, carts and inventory, and everything else. */
  lemma ClassifiedBy(t: EventType)
    ensures Classify(t) == Critical <==> t == Order || t == Payment
    ensures Classify(t) == Normal <==> t == CartAdd || t == InventoryUpdate
    ensures Classify(t) == BestEffort <==> t in {Click, PageView, Log} || t.Unmapped?
  {
  }

  /** Ensuring a priority gives an event the lane it asks for and changes nothing else. */
  lemma EnsuredIsAsked(e: Event)
    ensures EnsurePriority(e) == e.(priority := Some(LaneFor(e)))
    ensures e.priority.Some? ==> LaneFor(e) == e.priority.value
    ensures e.priority == None ==> LaneFor(e) == Classify(e.eventType)
  {
  }

  /** The part of an event that no stage of the pipeline may alter. */
  predicate SameOrigin(a: Event, b: Event) {
    a.id == b.id && a.eventType == b.eventType && a.timestamp == b.timestamp && a.receivedAt == b.receivedAt
  }

  /** The identifiers of a sequence of events, in order. */
  function Ids(es: seq<Event>): (ids: seq<EventId>)
    ensures |ids| == |es|
    ensures forall i :: 0 <= i < |es| ==> ids[i] == es[i].id
  {
    seq(|es|, i requires 0 <= i < |es| => es[i].id)
  }

  /** How many events of a sequence carry an identifier. */
  function Copies(es: seq<Event>, id: EventId): nat {
    if es == [] then 0 else Copies(es[..|es| - 1], id) + if es[|es| - 1].id == id then 1 else 0
  }

  lemma {:induction false} CopiesConcat(a: seq<Event>, b: seq<Event>, id: EventId)
    ensures Copies(a + b, id) == Copies(a, id) + Copies(b, id)
  {
    if b == [] {
      assert a + b == a;
    } else {
      assert (a + b)[..|a + b| - 1] == a + b[..|b| - 1];
      CopiesConcat(a, b[..|b| - 1], id);
    }
  }

  lemma {:induction false} CopiesMember(es: seq<Event>, id: EventId)
    ensures Copies(es, id) > 0 <==> id in Ids(es)
  {
    if es != [] {
      CopiesMember(es[..|es| - 1], id);
      assert Ids(es) == Ids(es[..|es| - 1]) + [es[|es| - 1].id];
    }
  }
}
