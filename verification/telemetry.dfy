/** Sliding-window telemetry: the pruned deque against the full history. */
module Telemetry {
  import opened Contracts
  import opened Rounding

  /** One recording: when, how many events, their total latency, and their lane. */
  datatype Sample = Sample(t: real, count: nat, total: real, lane: Option<Priority>)

  // ---- The window as the source keeps it ----

  /** Popping from the left while the leftmost sample is older than the cutoff. */
  function DropOld(q: seq<Sample>, cutoff: real): seq<Sample> {
    if q != [] && q[0].t < cutoff then DropOld(q[1..], cutoff) else q
  }

  datatype Op = Add(s: Sample) | Query(t: real)

  function TimeOf(op: Op): real {
    match op
    case Add(s) => s.t
    case Query(t) => t
  }

  function Append(q: seq<Sample>, op: Op): seq<Sample> {
    if op.Add? then q + [op.s] else q
  }

  /** The deque after a run of recordings and queries, each of which prunes. */
  function Window(ops: seq<Op>, width: real): seq<Sample> {
    if ops == [] then []
    else
      var op := ops[|ops| - 1];
      DropOld(Append(Window(ops[..|ops| - 1], width), op), TimeOf(op) - width)
  }

  // ---- The window as it is meant ----

  function History(ops: seq<Op>): seq<Sample> {
    if ops == [] then [] else Append(History(ops[..|ops| - 1]), ops[|ops| - 1])
  }

  function Since(h: seq<Sample>, cutoff: real): seq<Sample> {
    if h == [] then []
    else Since(h[..|h| - 1], cutoff) + if h[|h| - 1].t >= cutoff then [h[|h| - 1]] else []
  }

  predicate Chronological(h: seq<Sample>) {
    forall i, j :: 0 <= i <= j < |h| ==> h[i].t <= h[j].t
  }

  /** Time does not run backwards. */
  predicate InOrder(ops: seq<Op>) {
    |ops| < 2 || (TimeOf(ops[|ops| - 2]) <= TimeOf(ops[|ops| - 1]) && InOrder(ops[..|ops| - 1]))
  }

  lemma {:induction false} SinceConcat(a: seq<Sample>, b: seq<Sample>, cutoff: real)
    ensures Since(a + b, cutoff) == Since(a, cutoff) + Since(b, cutoff)
  {
    if b == [] {
      assert a + b == a;
    } else {
      assert (a + b)[..|a + b| - 1] == a + b[..|b| - 1];
      SinceConcat(a, b[..|b| - 1], cutoff);
    }
  }

  /** What is recent is what is no older than the cutoff, and nothing else. */
  lemma {:induction false} SinceIsExact(h: seq<Sample>, cutoff: real, s: Sample)
    ensures s in Since(h, cutoff) <==> s in h && cutoff <= s.t
    ensures multiset(Since(h, cutoff))[s] == if cutoff <= s.t then multiset(h)[s] else 0
  {
    if h != [] {
      var n := |h| - 1;
      SinceIsExact(h[..n], cutoff, s);
      assert h == h[..n] + [h[n]];
    }
  }

  lemma {:induction false} SinceAll(h: seq<Sample>, cutoff: real)
    requires forall i :: 0 <= i < |h| ==> h[i].t >= cutoff
    ensures Since(h, cutoff) == h
  {
    if h != [] {
      SinceAll(h[..|h| - 1], cutoff);
      assert h == h[..|h| - 1] + [h[|h| - 1]];
    }
  }

  /** On a chronological deque, dropping from the left is filtering. */
  lemma {:induction false} DropOldIsSince(q: seq<Sample>, cutoff: real)
    requires Chronological(q)
    ensures DropOld(q, cutoff) == Since(q, cutoff)
  {
    if q != [] && q[0].t < cutoff {
      DropOldIsSince(q[1..], cutoff);
      assert q == [q[0]] + q[1..];
      SinceConcat([q[0]], q[1..], cutoff);
      assert [q[0]][..0] == [];
      assert [] + Since(q[1..], cutoff) == Since(q[1..], cutoff);
    } else {
      SinceAll(q, cutoff);
    }
  }

  lemma {:induction false} SinceTwice(h: seq<Sample>, earlier: real, later: real)
    requires earlier <= later
    ensures Since(Since(h, earlier), later) == Since(h, later)
  {
    if h != [] {
      var n := |h| - 1;
      SinceTwice(h[..n], earlier, later);
      SinceConcat(Since(h[..n], earlier), if h[n].t >= earlier then [h[n]] else [], later);
      assert [h[n]][..0] == [];
    }
  }

  lemma {:induction false} SinceChronological(h: seq<Sample>, cutoff: real)
    requires Chronological(h)
    ensures Chronological(Since(h, cutoff))
    ensures forall s :: s in Since(h, cutoff) ==> s in h
  {
    if h != [] {
      var n := |h| - 1;
      SinceChronological(h[..n], cutoff);
      forall s | s in Since(h[..n], cutoff)
        ensures s.t <= h[n].t && s in h
      {
        var i :| 0 <= i < n && h[i] == s;
      }
    }
  }

  lemma {:induction false} HistoryChronological(ops: seq<Op>)
    requires InOrder(ops)
    ensures Chronological(History(ops))
    ensures ops != [] ==> forall i :: 0 <= i < |History(ops)| ==> History(ops)[i].t <= TimeOf(ops[|ops| - 1])
  {
    if ops != [] {
      HistoryChronological(ops[..|ops| - 1]);
    }
  }

  lemma AppendSince(h: seq<Sample>, op: Op, cutoff: real)
    requires op.Add? ==> op.s.t >= cutoff
    ensures Append(Since(h, cutoff), op) == Since(Append(h, op), cutoff)
  {
    if op.Add? {
      SinceConcat(h, [op.s], cutoff);
      assert [op.s][..0] == [];
    }
  }

  lemma WindowStep(h: seq<Sample>, op: Op, last: real, cutoff: real)
    requires Chronological(h) && Chronological(Append(h, op)) && last <= cutoff
    requires op.Add? ==> op.s.t >= last
    ensures DropOld(Append(Since(h, last), op), cutoff) == Since(Append(h, op), cutoff)
  {
    AppendSince(h, op, last);
    SinceChronological(Append(h, op), last);
    DropOldIsSince(Since(Append(h, op), last), cutoff);
    SinceTwice(Append(h, op), last, cutoff);
  }

  lemma AppendChronological(ops: seq<Op>)
    requires ops != [] && InOrder(ops)
    ensures Chronological(History(ops[..|ops| - 1]))
    ensures Chronological(Append(History(ops[..|ops| - 1]), ops[|ops| - 1]))
  {
    HistoryChronological(ops[..|ops| - 1]);
    HistoryChronological(ops);
  }

  lemma UnfoldLast(ops: seq<Op>, width: real)
    requires ops != []
    ensures var before, op := ops[..|ops| - 1], ops[|ops| - 1];
      && Window(ops, width) == DropOld(Append(Window(before, width), op), TimeOf(op) - width)
      && History(ops) == Append(History(before), op)
  {
  }

  lemma {:induction false} DropOldIsSuffix(q: seq<Sample>, cutoff: real)
    ensures |DropOld(q, cutoff)| <= |q| && DropOld(q, cutoff) == q[|q| - |DropOld(q, cutoff)|..]
  {
    if q != [] && q[0].t < cutoff {
      DropOldIsSuffix(q[1..], cutoff);
    }
  }

  lemma SuffixAppend(h: seq<Sample>, w: seq<Sample>, op: Op)
    requires |w| <= |h| && w == h[|h| - |w|..]
    ensures var h', w' := Append(h, op), Append(w, op); |w'| <= |h'| && w' == h'[|h'| - |w'|..]
  {
  }

  lemma SuffixOfSuffix(h: seq<Sample>, w: seq<Sample>, v: seq<Sample>)
    requires |w| <= |h| && w == h[|h| - |w|..] && |v| <= |w| && v == w[|w| - |v|..]
    ensures v == h[|h| - |v|..]
  {
  }

  lemma DroppedIsSuffix(h: seq<Sample>, w: seq<Sample>, cutoff: real)
    requires |w| <= |h| && w == h[|h| - |w|..]
    ensures var v := DropOld(w, cutoff); |v| <= |h| && v == h[|h| - |v|..]
  {
    DropOldIsSuffix(w, cutoff);
    SuffixOfSuffix(h, w, DropOld(w, cutoff));
  }

  /** However time runs, the window is the most recent part of the history. */
  lemma {:induction false} WindowIsSuffix(ops: seq<Op>, width: real)
    ensures |Window(ops, width)| <= |History(ops)|
    ensures Window(ops, width) == History(ops)[|History(ops)| - |Window(ops, width)|..]
  {
    if ops != [] {
      var before, op := ops[..|ops| - 1], ops[|ops| - 1];
      var h, q := Append(History(before), op), Append(Window(before, width), op);
      assert |q| <= |h| && q == h[|h| - |q|..] by {
        WindowIsSuffix(before, width);
        SuffixAppend(History(before), Window(before, width), op);
      }
      DroppedIsSuffix(h, q, TimeOf(op) - width);
      UnfoldLast(ops, width);
    }
  }

  /** The cutoff of the window before the last operation, and one no later than its own. */
  function LastCutoff(ops: seq<Op>, width: real): real
    requires ops != []
  {
    if |ops| == 1 then TimeOf(ops[0]) - width else TimeOf(ops[|ops| - 2]) - width
  }

  lemma NextWindow(ops: seq<Op>, width: real)
    requires ops != [] && InOrder(ops) && 0.0 <= width
    requires Window(ops[..|ops| - 1], width) == Since(History(ops[..|ops| - 1]), LastCutoff(ops, width))
    ensures Window(ops, width) == Since(History(ops), TimeOf(ops[|ops| - 1]) - width)
  {
    var h, w, op := History(ops[..|ops| - 1]), Window(ops[..|ops| - 1], width), ops[|ops| - 1];
    var last, cutoff := LastCutoff(ops, width), TimeOf(op) - width;
    assert DropOld(Append(Since(h, last), op), cutoff) == Since(Append(h, op), cutoff) by {
      AppendChronological(ops);
      WindowStep(h, op, last, cutoff);
    }
    assert Append(w, op) == Append(Since(h, last), op);
    UnfoldLast(ops, width);
  }

  /** The window refines the history: when time does not run backwards, the deque holds
      exactly the recordings of the last `width` seconds, in order, after any mix of
      recordings and queries. */
  lemma {:induction false} WindowIsRecentHistory(ops: seq<Op>, width: real)
    requires ops != [] && InOrder(ops) && 0.0 <= width
    ensures Window(ops, width) == Since(History(ops), TimeOf(ops[|ops| - 1]) - width)
  {
    if |ops| > 1 {
      WindowIsRecentHistory(ops[..|ops| - 1], width);
    }
    NextWindow(ops, width);
  }

  // ---- Exactly when the window is right ----

  lemma {:induction false} SinceAllIff(h: seq<Sample>, cutoff: real)
    ensures |Since(h, cutoff)| <= |h|
    ensures Since(h, cutoff) == h <==> forall i :: 0 <= i < |h| ==> h[i].t >= cutoff
  {
    if h != [] {
      var n := |h| - 1;
      SinceAllIff(h[..n], cutoff);
      if h[n].t >= cutoff && Since(h, cutoff) == h {
        assert Since(h[..n], cutoff) == Since(h, cutoff)[..n] == h[..n];
        assert forall i :: 0 <= i < n ==> h[..n][i] == h[i];
      }
      if forall i :: 0 <= i < |h| ==> h[i].t >= cutoff {
        SinceAll(h, cutoff);
      }
    }
  }

  /** Nothing older than the cutoff stands behind something younger. */
  predicate OldFirst(q: seq<Sample>, cutoff: real) {
    forall i, j :: 0 <= i <= j < |q| && q[j].t < cutoff ==> q[i].t < cutoff
  }

  lemma OldFirstTail(q: seq<Sample>, cutoff: real)
    requires q != [] && q[0].t < cutoff
    ensures OldFirst(q, cutoff) <==> OldFirst(q[1..], cutoff)
  {
    var r := q[1..];
    assert forall i :: 0 <= i < |r| ==> r[i] == q[i + 1];
    if OldFirst(r, cutoff) {
      forall i, j | 0 <= i <= j < |q| && q[j].t < cutoff
        ensures q[i].t < cutoff
      {
        if i > 0 {
          assert r[i - 1] == q[i] && r[j - 1] == q[j];
        }
      }
    }
    if OldFirst(q, cutoff) {
      forall i, j | 0 <= i <= j < |r| && r[j].t < cutoff
        ensures r[i].t < cutoff
      {
        assert q[i + 1] == r[i] && q[j + 1] == r[j];
      }
    }
  }

  lemma SinceDropsHead(q: seq<Sample>, cutoff: real)
    requires q != [] && q[0].t < cutoff
    ensures Since(q, cutoff) == Since(q[1..], cutoff)
  {
    assert q == [q[0]] + q[1..];
    SinceConcat([q[0]], q[1..], cutoff);
    SinceOne(q[0], cutoff);
    assert [] + Since(q[1..], cutoff) == Since(q[1..], cutoff);
  }

  /** Dropping from the left is filtering if and only if nothing old stands behind something
      younger in the deque. */
  lemma {:induction false} DropOldIsSinceIff(q: seq<Sample>, cutoff: real)
    ensures DropOld(q, cutoff) == Since(q, cutoff) <==> OldFirst(q, cutoff)
  {
    if q != [] && q[0].t < cutoff {
      DropOldIsSinceIff(q[1..], cutoff);
      SinceDropsHead(q, cutoff);
      OldFirstTail(q, cutoff);
    } else {
      SinceAllIff(q, cutoff);
    }
  }

  /** Filtering what was dropped to gives what filtering the whole would have given. */
  lemma {:induction false} SinceOfDropped(q: seq<Sample>, cutoff: real)
    ensures Since(DropOld(q, cutoff), cutoff) == Since(q, cutoff)
  {
    if q != [] && q[0].t < cutoff {
      SinceOfDropped(q[1..], cutoff);
      SinceDropsHead(q, cutoff);
    }
  }

  lemma {:induction false} SinceIdempotent(h: seq<Sample>, cutoff: real)
    ensures Since(Since(h, cutoff), cutoff) == Since(h, cutoff)
  {
    SinceTwice(h, cutoff, cutoff);
  }

  /** Nothing already dropped from `h` at one cutoff comes back into view at another. */
  predicate NoneReturns(h: seq<Sample>, last: real, cutoff: real) {
    forall i :: 0 <= i < |h| && cutoff <= h[i].t ==> last <= h[i].t
  }

  lemma NoneReturnsSnoc(h: seq<Sample>, last: real, cutoff: real)
    requires h != []
    ensures var n := |h| - 1;
      NoneReturns(h, last, cutoff) <==> NoneReturns(h[..n], last, cutoff) && (cutoff <= h[n].t ==> last <= h[n].t)
  {
    var n := |h| - 1;
    assert forall i :: 0 <= i < n ==> h[..n][i] == h[i];
  }

  /** Filtering twice against filtering once, after one more sample. */
  lemma TwiceSnoc(a: seq<Sample>, b: seq<Sample>, x: Sample, both: bool, once: bool, rest: bool)
    requires |a| <= |b| && (a == b <==> rest) && (both ==> once)
    ensures var a', b' := if both then a + [x] else a, if once then b + [x] else b;
      |a'| <= |b'| && (a' == b' <==> rest && (once ==> both))
  {
    SameInit(a, b, x);
  }

  lemma {:induction false} SinceTwiceIff(h: seq<Sample>, last: real, cutoff: real)
    ensures |Since(Since(h, last), cutoff)| <= |Since(h, cutoff)|
    ensures Since(Since(h, last), cutoff) == Since(h, cutoff) <==> NoneReturns(h, last, cutoff)
  {
    if h != [] {
      var x, init := h[|h| - 1], h[..|h| - 1];
      SinceTwiceIff(init, last, cutoff);
      SinceLast(h, last, cutoff);
      NoneReturnsSnoc(h, last, cutoff);
      TwiceSnoc(Since(Since(init, last), cutoff), Since(init, cutoff), x, x.t >= last && x.t >= cutoff, x.t >= cutoff,
                NoneReturns(init, last, cutoff));
    }
  }

  lemma SameInit(a: seq<Sample>, b: seq<Sample>, x: Sample)
    ensures a + [x] == b + [x] <==> a == b
  {
    if a + [x] == b + [x] {
      assert (a + [x])[..|a|] == a && (b + [x])[..|b|] == b;
    }
  }

  lemma SinceLast(h: seq<Sample>, last: real, cutoff: real)
    requires h != []
    ensures var x, init := h[|h| - 1], h[..|h| - 1];
      && Since(h, cutoff) == (if x.t >= cutoff then Since(init, cutoff) + [x] else Since(init, cutoff))
      && Since(Since(h, last), cutoff)
         == if x.t >= last && x.t >= cutoff then Since(Since(init, last), cutoff) + [x] else Since(Since(init, last), cutoff)
  {
    var x, init := h[|h| - 1], h[..|h| - 1];
    assert Since(init, cutoff) + [] == Since(init, cutoff);
    if x.t >= last {
      SinceConcat(Since(init, last), [x], cutoff);
      SinceOne(x, cutoff);
      assert Since(Since(init, last), cutoff) + [] == Since(Since(init, last), cutoff);
    } else {
      assert Since(init, last) + [] == Since(init, last);
    }
  }

  /** The deque filtered is the history filtered exactly when nothing returns. */
  lemma FilteredDeque(h: seq<Sample>, op: Op, last: real, cutoff: real)
    ensures Since(Append(Since(h, last), op), cutoff) == Since(Append(h, op), cutoff)
      <==> Since(Since(h, last), cutoff) == Since(h, cutoff)
  {
    if op.Add? {
      SinceConcat(Since(h, last), [op.s], cutoff);
      SinceConcat(h, [op.s], cutoff);
      SinceOne(op.s, cutoff);
      SameInit(Since(Since(h, last), cutoff), Since(h, cutoff), op.s);
      assert Since(h, cutoff) + [] == Since(h, cutoff);
      assert Since(Since(h, last), cutoff) + [] == Since(Since(h, last), cutoff);
    }
  }

  lemma FixedPoint(d: seq<Sample>, f: seq<Sample>, t: seq<Sample>, cutoff: real)
    requires Since(d, cutoff) == f && Since(t, cutoff) == t
    ensures d == t <==> d == f && f == t
  {
  }

  /** From a right window, the next one is right if and only if, in the deque about to be
      pruned, nothing old stands behind something younger, and the clock has not gone back to
      where something already dropped would be in view. */
  lemma PruneIsRightIff(h: seq<Sample>, op: Op, last: real, cutoff: real)
    ensures var q := Append(Since(h, last), op);
      DropOld(q, cutoff) == Since(Append(h, op), cutoff) <==> OldFirst(q, cutoff) && NoneReturns(h, last, cutoff)
  {
    var q := Append(Since(h, last), op);
    var d, f, t := DropOld(q, cutoff), Since(q, cutoff), Since(Append(h, op), cutoff);
    SinceOfDropped(q, cutoff);
    SinceIdempotent(Append(h, op), cutoff);
    FixedPoint(d, f, t, cutoff);
    DropOldIsSinceIff(q, cutoff);
    FilteredDeque(h, op, last, cutoff);
    SinceTwiceIff(h, last, cutoff);
  }

  /** The same of the window itself. */
  lemma WindowStaysRightIff(ops: seq<Op>, width: real, last: real)
    requires ops != [] && Window(ops[..|ops| - 1], width) == Since(History(ops[..|ops| - 1]), last)
    ensures var before, op := ops[..|ops| - 1], ops[|ops| - 1];
      var cutoff := TimeOf(op) - width;
      Window(ops, width) == Since(History(ops), cutoff)
      <==> OldFirst(Append(Window(before, width), op), cutoff) && NoneReturns(History(before), last, cutoff)
  {
    var h, w, op := History(ops[..|ops| - 1]), Window(ops[..|ops| - 1], width), ops[|ops| - 1];
    PruneIsRightIff(h, op, last, TimeOf(op) - width);
    assert Append(w, op) == Append(Since(h, last), op);
    UnfoldLast(ops, width);
  }

  /** The witness: a sample recorded behind a newer one
      outlives the window. */
  lemma OutOfOrderKeepsOld(newer: Sample, older: Sample)
    requires newer.t == 10.0 && older.t == 1.0
    ensures Window([Add(newer), Add(older), Query(8.0)], 5.0) == [newer, older]
    ensures Since(History([Add(newer), Add(older), Query(8.0)]), 3.0) == [newer]
  {
    var one, two := [Add(newer)], [Add(newer), Add(older)];
    var three := [Add(newer), Add(older), Query(8.0)];
    assert one[..0] == [] && two[..1] == one && three[..2] == two;
    assert Append([], Add(newer)) == [newer] && Append([newer], Add(older)) == [newer, older];
    assert Window(one, 5.0) == [newer] && History(one) == [newer];
    assert Window(two, 5.0) == [newer, older] && History(two) == [newer, older];
    assert History(three) == [newer, older];
    assert [newer][..0] == [] && [newer, older][..1] == [newer];
    assert Since([newer], 3.0) == [newer];
  }

  // ---- The bounded list of recent latencies ----

  /** Appending to a deque with a maximum length. */
  function PushBounded(q: seq<real>, x: real, maxlen: nat): seq<real> {
    var r := q + [x];
    if |r| > maxlen then r[1..] else r
  }

  function LastN(s: seq<real>, n: nat): seq<real> {
    if |s| <= n then s else s[|s| - n..]
  }

  /** All of it, or exactly `n` from the end. */
  lemma LastNIsTail(s: seq<real>, n: nat, i: nat)
    ensures |LastN(s, n)| <= n && |LastN(s, n)| <= |s| && (|LastN(s, n)| == n || |LastN(s, n)| == |s|)
    ensures i < |LastN(s, n)| ==> LastN(s, n)[i] == s[|s| - |LastN(s, n)| + i]
  {
  }

  lemma PushKeepsLastN(s: seq<real>, x: real, n: nat)
    ensures PushBounded(LastN(s, n), x, n) == LastN(s + [x], n)
  {
  }

  /** Extending it element by element. */
  function ExtendBounded(q: seq<real>, xs: seq<real>, maxlen: nat): seq<real> {
    if xs == [] then q else PushBounded(ExtendBounded(q, xs[..|xs| - 1], maxlen), xs[|xs| - 1], maxlen)
  }

  /** A bounded deque is the last `n` of everything ever appended to it. */
  lemma {:induction false} ExtendKeepsLastN(s: seq<real>, xs: seq<real>, n: nat)
    ensures ExtendBounded(LastN(s, n), xs, n) == LastN(s + xs, n)
  {
    if xs == [] {
      assert s + [] == s;
    } else {
      var k := |xs| - 1;
      ExtendKeepsLastN(s, xs[..k], n);
      PushKeepsLastN(s + xs[..k], xs[k], n);
      assert (s + xs[..k]) + [xs[k]] == s + xs;
    }
  }

  // ---- One lane ----

  /** The samples of one lane, in order. */
  function OfLane(q: seq<Sample>, p: Priority): seq<Sample> {
    if q == [] then []
    else OfLane(q[..|q| - 1], p) + if q[|q| - 1].lane == Some(p) then [q[|q| - 1]] else []
  }

  lemma OfLaneSnoc(h: seq<Sample>, x: Sample, p: Priority)
    ensures OfLane(h + [x], p) == if x.lane == Some(p) then OfLane(h, p) + [x] else OfLane(h, p)
  {
    assert (h + [x])[..|h|] == h;
    assert OfLane(h, p) + [] == OfLane(h, p);
  }

  lemma SinceSnoc(h: seq<Sample>, x: Sample, cutoff: real)
    ensures Since(h + [x], cutoff) == if x.t >= cutoff then Since(h, cutoff) + [x] else Since(h, cutoff)
  {
    assert (h + [x])[..|h|] == h;
    assert Since(h, cutoff) + [] == Since(h, cutoff);
  }

  lemma LaneSinceSnoc(init: seq<Sample>, x: Sample, cutoff: real, p: Priority)
    requires OfLane(Since(init, cutoff), p) == Since(OfLane(init, p), cutoff)
    ensures OfLane(Since(init + [x], cutoff), p) == Since(OfLane(init + [x], p), cutoff)
  {
    SinceSnoc(init, x, cutoff);
    OfLaneSnoc(init, x, p);
    OfLaneSnoc(Since(init, cutoff), x, p);
    SinceSnoc(OfLane(init, p), x, cutoff);
  }

  /** Looking at one lane and looking at the window commute. */
  lemma {:induction false} OfLaneSince(h: seq<Sample>, cutoff: real, p: Priority)
    ensures OfLane(Since(h, cutoff), p) == Since(OfLane(h, p), cutoff)
  {
    if h != [] {
      var x, init := h[|h| - 1], h[..|h| - 1];
      OfLaneSince(init, cutoff, p);
      LaneSinceSnoc(init, x, cutoff, p);
      assert init + [x] == h;
    }
  }

  lemma SinceOne(s: Sample, cutoff: real)
    ensures Since([s], cutoff) == if s.t >= cutoff then [s] else []
  {
    assert [s][..0] == [];
  }

  /** The window of one lane holds exactly that lane's recordings of the last `width` seconds. */
  lemma LaneWindowIsRecentHistory(ops: seq<Op>, width: real, p: Priority)
    requires ops != [] && InOrder(ops) && 0.0 <= width
    ensures OfLane(Window(ops, width), p) == Since(OfLane(History(ops), p), TimeOf(ops[|ops| - 1]) - width)
  {
    var h, cutoff := History(ops), TimeOf(ops[|ops| - 1]) - width;
    assert Window(ops, width) == Since(h, cutoff) by {
      WindowIsRecentHistory(ops, width);
    }
    OfLaneSince(h, cutoff, p);
  }

  // ---- Averages over a window ----

  function CountOf(q: seq<Sample>): nat {
    if q == [] then 0 else CountOf(q[..|q| - 1]) + q[|q| - 1].count
  }

  function TotalOf(q: seq<Sample>): real {
    if q == [] then 0.0 else TotalOf(q[..|q| - 1]) + q[|q| - 1].total
  }

  /** Every event counted by the sample took between `lo` and `hi`. */
  predicate Within(s: Sample, lo: real, hi: real) {
    TotalIn(s.count, s.total, lo, hi)
  }

  lemma {:induction false} TotalWithin(q: seq<Sample>, lo: real, hi: real)
    requires forall i :: 0 <= i < |q| ==> Within(q[i], lo, hi)
    ensures TotalIn(CountOf(q), TotalOf(q), lo, hi)
  {
    if q != [] {
      var n := |q| - 1;
      TotalWithin(q[..n], lo, hi);
      assert Within(q[n], lo, hi);
      TotalInAdds(CountOf(q[..n]), TotalOf(q[..n]), q[n].count, q[n].total, lo, hi);
    }
  }

  function AverageOf(q: seq<Sample>): real {
    if CountOf(q) > 0 then Round(TotalOf(q) / CountOf(q) as real, 100.0) else 0.0
  }

  /** The reported average lies between the least and the greatest latency in the window. */
  lemma AverageWithin(q: seq<Sample>, lo: real, hi: real)
    requires CountOf(q) > 0 && forall i :: 0 <= i < |q| ==> Within(q[i], lo, hi)
    ensures Round(lo, 100.0) <= AverageOf(q) <= Round(hi, 100.0)
  {
    TotalWithin(q, lo, hi);
    MeanIn(CountOf(q), TotalOf(q), lo, hi, 100.0);
  }
}
