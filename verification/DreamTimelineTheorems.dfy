/** What the recovered timeline says about the cycles that produced the rows. */
module DreamTimelineTheorems {
  import opened Common
  import opened DreamTimeline

  // ---- round trip ----

  /** One dream cycle: Light to its fixpoint, then REM, then Deep. */
  datatype Cycle = Cycle(lights: seq<Row>, rem: Row, deep: Row)

  /** Promotions, retirements and boosts are what Deep and REM leave behind. */
  predicate NoLaterSignal(r: Row) {
    r.promotions <= 0 && r.retirements <= 0 && r.boosted <= 0
  }

  /** Every counter is zero: any phase that did nothing. */
  predicate IsZero(r: Row)
    ensures IsZero(r) <==> r.Phase().Ambiguous?
  {
    NoLaterSignal(r) && r.watermark <= 0 && r.inserted <= 0 && r.merged <= 0 && r.review <= 0
  }

  /** A Light row that processed, inserted, merged or reviewed something. */
  predicate LightSignature(r: Row)
    ensures LightSignature(r) <==> IsLight(r)
  {
    NoLaterSignal(r) && (r.watermark > 0 || r.inserted > 0 || r.merged > 0 || r.review > 0)
  }

  /** A REM row: boosts, or nothing. */
  predicate RemCounters(r: Row)
    ensures RemCounters(r) <==> FillsRemSlot(r)
  {
    r.promotions <= 0 && r.retirements <= 0 && (r.boosted > 0 || IsZero(r))
  }

  /** A Deep row: promotions or retirements, possibly retirements alone, or nothing. */
  predicate DeepCounters(r: Row)
    ensures DeepCounters(r) <==> r.Phase().Deep? || r.Phase().Ambiguous?
  {
    r.promotions > 0 || r.retirements > 0 || IsZero(r)
  }

  /** Light rows carry a Light signature or none; the first carries one. */
  ghost predicate LightRows(lights: seq<Row>) {
    forall i :: 0 <= i < |lights| ==> LightSignature(lights[i]) || IsZero(lights[i])
  }

  ghost predicate ValidCycle(c: Cycle) {
    && c.lights != [] && LightSignature(c.lights[0]) && LightRows(c.lights)
    && RemCounters(c.rem) && DeepCounters(c.deep)
  }

  ghost predicate ValidHistory(h: seq<Cycle>) {
    forall i :: 0 <= i < |h| ==> ValidCycle(h[i])
  }

  function Rows(h: seq<Cycle>): seq<Row> {
    if h == [] then [] else h[0].lights + [h[0].rem, h[0].deep] + Rows(h[1..])
  }

  function DeepOf(c: Cycle): DeepCycle {
    var d := c.deep;
    DeepCycle(d.runId, d.startedAt, d.finishedAt, d.promotions, d.retirements, IsZero(d) || IsZero(c.rem))
  }

  function Deeps(h: seq<Cycle>): seq<DeepCycle> {
    if h == [] then [] else [DeepOf(h[0])] + Deeps(h[1..])
  }

  /** Two all-zero Light rows in a row. */
  ghost predicate DoubleZero(lights: seq<Row>) {
    exists i :: 0 <= i < |lights| - 1 && IsZero(lights[i]) && IsZero(lights[i + 1])
  }

  lemma PairOfZeros(t: seq<Row>)
    requires forall i :: 0 <= i < |t| ==> IsZero(t[i])
    ensures PairTail(t) == Pair(t) && (Pair(t) == [] <==> |t| <= 1)
  {
  }

  lemma {:induction false} LightsAlone(lights: seq<Row>)
    requires LightRows(lights)
    ensures Timeline(lights) == [] <==> !DoubleZero(lights)
    decreases |lights|
  {
    if lights != [] {
      var n := if IsLight(lights[0]) then 1 else TailPrefix(lights);
      var rest := lights[n..];
      LightsAlone(rest);
      if IsZero(lights[0]) {
        PairOfZeros(lights[..n]);
        assert n >= 2 ==> IsZero(lights[0]) && IsZero(lights[0 + 1]);
      }
      DoubleZeroSplits(lights, n);
    }
  }

  /** Cutting before a clear Light row cuts no pair of zero rows. */
  lemma DoubleZeroSplits(lights: seq<Row>, n: nat)
    requires 0 < n <= |lights|
    requires n < |lights| && IsZero(lights[n - 1]) ==> !IsZero(lights[n])
    ensures DoubleZero(lights) <==> DoubleZero(lights[..n]) || DoubleZero(lights[n..])
  {
  }

  lemma PairEndsInCycle(t: seq<Row>, rem: Row, deep: Row)
    requires FillsRemSlot(rem) && (deep.Phase().Deep? || IsZero(deep))
    ensures PairTail(t + [rem, deep]) == Pair(t) + [CycleOf(deep, IsZero(deep) || IsZero(rem))]
  {
  }

  /** A run of rows that are not Light, up to a Light row or the end, is paired on its own. */
  lemma {:induction false} TimelineOfRun(tail: seq<Row>, rest: seq<Row>)
    requires forall i :: 0 <= i < |tail| ==> !IsLight(tail[i])
    requires rest != [] ==> IsLight(rest[0])
    ensures Timeline(tail + rest) == PairTail(tail) + Timeline(rest)
  {
    if tail == [] {
      assert tail + rest == rest;
    } else {
      TailPrefixExtends(tail, rest);
      var all := tail + rest;
      assert all[..|tail|] == tail && all[|tail|..] == rest;
    }
  }

  lemma {:induction false} TimelineOfZeros(zeros: seq<Row>)
    requires forall i :: 0 <= i < |zeros| ==> IsZero(zeros[i])
    ensures Timeline(zeros) == Pair(zeros)
  {
    TimelineOfRun(zeros, []);
    PairOfZeros(zeros);
    assert zeros + [] == zeros;
  }

  /** The tail of a cycle whose remaining Light rows are all zero. */
  lemma {:induction false} ZerosThenCycle(zeros: seq<Row>, rem: Row, deep: Row, rest: seq<Row>)
    requires forall i :: 0 <= i < |zeros| ==> IsZero(zeros[i])
    requires FillsRemSlot(rem) && (deep.Phase().Deep? || IsZero(deep))
    requires rest != [] ==> IsLight(rest[0])
    ensures Timeline(zeros + [rem, deep] + rest)
            == Timeline(zeros) + [CycleOf(deep, IsZero(deep) || IsZero(rem))] + Timeline(rest)
  {
    TimelineOfRun(zeros + [rem, deep], rest);
    PairEndsInCycle(zeros, rem, deep);
    TimelineOfZeros(zeros);
  }

  lemma Regroup<T>(a: seq<T>, b: seq<T>, c: seq<T>, d: seq<T>)
    ensures a + b + c + d == a + (b + c + d)
  {
  }

  lemma LightThenCycle(lights: seq<Row>, rem: Row, deep: Row, rest: seq<Row>)
    requires lights != [] && IsLight(lights[0])
    ensures Timeline(lights + [rem, deep] + rest) == Timeline(lights[1..] + [rem, deep] + rest)
    ensures Timeline(lights) == Timeline(lights[1..])
  {
    ConcatAssoc(lights, [rem, deep], rest);
    ConcatAssoc(lights[1..], [rem, deep], rest);
    ConcatDrop(lights, [rem, deep] + rest, 1);
  }

  lemma {:induction false} OneCycle(lights: seq<Row>, rem: Row, deep: Row, rest: seq<Row>)
    requires LightRows(lights) && FillsRemSlot(rem) && (deep.Phase().Deep? || IsZero(deep))
    requires rest != [] ==> IsLight(rest[0])
    ensures Timeline(lights + [rem, deep] + rest)
            == Timeline(lights) + [CycleOf(deep, IsZero(deep) || IsZero(rem))] + Timeline(rest)
    decreases |lights|
  {
    var n := TailPrefix(lights);
    if n == |lights| {
      ZerosThenCycle(lights, rem, deep, rest);
    } else if n == 0 {
      OneCycle(lights[1..], rem, deep, rest);
      LightThenCycle(lights, rem, deep, rest);
    } else {
      OneCycle(lights[n..], rem, deep, rest);
      RunBeforeCycle(lights[..n], lights[n..], rem, deep, rest, CycleOf(deep, IsZero(deep) || IsZero(rem)));
      SplitAt(lights, n);
    }
  }

  lemma RunBeforeCycle(a: seq<Row>, b: seq<Row>, rem: Row, deep: Row, rest: seq<Row>, c: DeepCycle)
    requires forall i :: 0 <= i < |a| ==> !IsLight(a[i])
    requires b != [] && IsLight(b[0])
    requires Timeline(b + [rem, deep] + rest) == Timeline(b) + [c] + Timeline(rest)
    ensures Timeline(a + b + [rem, deep] + rest) == Timeline(a + b) + [c] + Timeline(rest)
  {
    TimelineOfRun(a, b + [rem, deep] + rest);
    TimelineOfRun(a, b);
    Regroup(a, b, [rem, deep], rest);
    Regroup(PairTail(a), Timeline(b), [c], Timeline(rest));
  }

  lemma RowsStartLight(h: seq<Cycle>)
    requires ValidHistory(h) && h != []
    ensures Rows(h) != [] && IsLight(Rows(h)[0])
  {
  }

  ghost predicate AnyDoubleZero(h: seq<Cycle>) {
    exists i :: 0 <= i < |h| && DoubleZero(h[i].lights)
  }

  lemma AnyDoubleZeroSplits(h: seq<Cycle>)
    requires h != []
    ensures AnyDoubleZero(h) <==> DoubleZero(h[0].lights) || AnyDoubleZero(h[1..])
  {
  }

  lemma {:induction false} TimelineOfHistory(h: seq<Cycle>)
    requires ValidHistory(h) && h != []
    ensures Timeline(Rows(h)) == Timeline(h[0].lights) + [DeepOf(h[0])] + Timeline(Rows(h[1..]))
    ensures Timeline(h[0].lights) == [] <==> !DoubleZero(h[0].lights)
  {
    var c, rest := h[0], h[1..];
    assert ValidCycle(c);
    if rest != [] {
      RowsStartLight(rest);
    }
    OneCycle(c.lights, c.rem, c.deep, Rows(rest));
    LightsAlone(c.lights);
  }

  lemma {:induction false} RoundTripCount(h: seq<Cycle>)
    requires ValidHistory(h)
    ensures |Timeline(Rows(h))| >= |h|
    ensures if AnyDoubleZero(h) then |Timeline(Rows(h))| > |h| else Timeline(Rows(h)) == Deeps(h)
  {
    if h != [] {
      RoundTripCount(h[1..]);
      TimelineOfHistory(h);
      AnyDoubleZeroSplits(h);
    }
  }

  lemma {:induction false} DeepsLength(h: seq<Cycle>)
    ensures |Deeps(h)| == |h|
  {
    if h != [] {
      DeepsLength(h[1..]);
    }
  }

  /** For a history of cycles, the timeline is exactly the Deep rows, in order, if and
      only if no cycle has two all-zero Light rows next to each other. */
  lemma {:induction false} RoundTrip(h: seq<Cycle>)
    requires ValidHistory(h)
    ensures Timeline(Rows(h)) == Deeps(h) <==> forall i :: 0 <= i < |h| ==> !DoubleZero(h[i].lights)
  {
    RoundTripCount(h);
    DeepsLength(h);
  }

  // ---- arbitrary rows ----

  ghost predicate IncreasingIds(rows: seq<Row>) {
    forall i, j :: 0 <= i < j < |rows| ==> rows[i].runId < rows[j].runId
  }

  ghost predicate Ordered(cs: seq<DeepCycle>) {
    forall i, j :: 0 <= i < j < |cs| ==> cs[i].runId < cs[j].runId
  }

  ghost predicate Reports(c: DeepCycle, r: Row) {
    c == DeepCycle(r.runId, r.startedAt, r.finishedAt, r.promotions, r.retirements, c.phaseInferred)
  }

  ghost predicate ComesFrom(c: DeepCycle, rows: seq<Row>) {
    exists r :: r in rows && !LightSignature(r) && Reports(c, r)
  }

  ghost predicate Reported(r: Row, cs: seq<DeepCycle>) {
    exists c :: c in cs && Reports(c, r)
  }

  /** In row order, only rows that are not clearly Light, and every clearly-Deep row.
      Run ids increase, so a row is reported at most once. */
  ghost predicate Faithful(cs: seq<DeepCycle>, rows: seq<Row>) {
    && Ordered(cs)
    && (forall c :: c in cs ==> ComesFrom(c, rows))
    && (forall r :: r in rows && (r.promotions > 0 || r.retirements > 0) ==> Reported(r, cs))
  }

  lemma OrderedConcat(a: seq<DeepCycle>, rowsA: seq<Row>, b: seq<DeepCycle>, rowsB: seq<Row>)
    requires Faithful(a, rowsA) && Faithful(b, rowsB) && IncreasingIds(rowsA + rowsB)
    ensures Ordered(a + b)
  {
    forall i, j | 0 <= i < |a| && 0 <= j < |b| ensures a[i].runId < b[j].runId {
      assert a[i] in a && b[j] in b;
      var r :| r in rowsA && !LightSignature(r) && Reports(a[i], r);
      var q :| q in rowsB && !LightSignature(q) && Reports(b[j], q);
      var m :| 0 <= m < |rowsA| && rowsA[m] == r;
      var n :| 0 <= n < |rowsB| && rowsB[n] == q;
      assert (rowsA + rowsB)[m] == r && (rowsA + rowsB)[|rowsA| + n] == q;
    }
  }

  lemma FaithfulConcat(a: seq<DeepCycle>, rowsA: seq<Row>, b: seq<DeepCycle>, rowsB: seq<Row>)
    requires Faithful(a, rowsA) && Faithful(b, rowsB) && IncreasingIds(rowsA + rowsB)
    ensures Faithful(a + b, rowsA + rowsB)
  {
    OrderedConcat(a, rowsA, b, rowsB);
    forall c | c in a + b ensures ComesFrom(c, rowsA + rowsB) {
      if c in a {
        var r :| r in rowsA && !LightSignature(r) && Reports(c, r);
        assert r in rowsA + rowsB;
      } else {
        var r :| r in rowsB && !LightSignature(r) && Reports(c, r);
        assert r in rowsA + rowsB;
      }
    }
    forall r | r in rowsA + rowsB && (r.promotions > 0 || r.retirements > 0) ensures Reported(r, a + b) {
      assert if r in rowsA then Reported(r, a) else Reported(r, b);
    }
  }

  /** What one step of the right-to-left pairing consumes. */
  lemma FaithfulStep(t: seq<Row>, cut: nat, inferred: bool)
    requires t != [] && cut < |t| && |t| - cut <= 2
    requires forall i :: cut <= i < |t| ==> !IsLight(t[i])
    requires |t| - cut == 2 ==> !t[cut].Phase().Deep?
    ensures Faithful([CycleOf(t[|t| - 1], inferred)], t[cut..])
  {
    var r, c := t[|t| - 1], CycleOf(t[|t| - 1], inferred);
    assert t[cut..][|t| - 1 - cut] == r && Reports(c, r) && c in [c];
  }

  /** Appending what one step consumed: `cs` is the cycle it reported, or none. */
  lemma FaithfulAppend(t: seq<Row>, cut: nat, cs: seq<DeepCycle>)
    requires cut <= |t| && IncreasingIds(t) && Faithful(Pair(t[..cut]), t[..cut]) && Faithful(cs, t[cut..])
    ensures Faithful(Pair(t[..cut]) + cs, t)
  {
    assert t[..cut] + t[cut..] == t;
    FaithfulConcat(Pair(t[..cut]), t[..cut], cs, t[cut..]);
  }

  lemma NothingToReport(rows: seq<Row>)
    requires forall i :: 0 <= i < |rows| ==> !rows[i].Phase().Deep?
    ensures Faithful([], rows)
  {
  }

  lemma {:induction false} PairedFaithful(t: seq<Row>)
    requires |t| >= 2 && FillsRemSlot(t[|t| - 2]) && Faithful(Pair(t[..|t| - 2]), t[..|t| - 2])
    requires IncreasingIds(t) && forall i :: 0 <= i < |t| ==> !IsLight(t[i])
    ensures Faithful(Pair(t), t)
  {
    var n, deep := |t|, t[|t| - 1];
    var inferred := deep.Phase().Ambiguous? || t[n - 2].Phase().Ambiguous?;
    FaithfulStep(t, n - 2, inferred);
    FaithfulAppend(t, n - 2, [CycleOf(deep, inferred)]);
  }

  /** What a row without a REM partner reports. */
  function Lone(r: Row): seq<DeepCycle> {
    if r.Phase().Deep? then [CycleOf(r, false)] else []
  }

  lemma PairLone(t: seq<Row>)
    requires t != [] && !(|t| >= 2 && FillsRemSlot(t[|t| - 2]))
    ensures Pair(t) == Pair(t[..|t| - 1]) + Lone(t[|t| - 1])
  {
  }

  lemma LoneReported(t: seq<Row>)
    requires t != [] && !IsLight(t[|t| - 1])
    ensures Faithful(Lone(t[|t| - 1]), t[|t| - 1..])
  {
    var r, c := t[|t| - 1], CycleOf(t[|t| - 1], false);
    assert t[|t| - 1..] == [r] && Reports(c, r) && c in [c];
  }

  lemma LoneFaithful(t: seq<Row>)
    requires t != [] && !(|t| >= 2 && FillsRemSlot(t[|t| - 2])) && Faithful(Pair(t[..|t| - 1]), t[..|t| - 1])
    requires IncreasingIds(t) && forall i :: 0 <= i < |t| ==> !IsLight(t[i])
    ensures Faithful(Pair(t), t)
  {
    PairLone(t);
    LoneReported(t);
    FaithfulAppend(t, |t| - 1, Lone(t[|t| - 1]));
  }

  lemma {:induction false} PairFaithful(t: seq<Row>)
    requires IncreasingIds(t) && forall i :: 0 <= i < |t| ==> !IsLight(t[i])
    ensures Faithful(Pair(t), t)
  {
    if |t| >= 2 && FillsRemSlot(t[|t| - 2]) {
      PairFaithful(t[..|t| - 2]);
      PairedFaithful(t);
    } else if t != [] {
      PairFaithful(t[..|t| - 1]);
      LoneFaithful(t);
    }
  }

  lemma PairTailFaithful(t: seq<Row>)
    requires IncreasingIds(t) && forall i :: 0 <= i < |t| ==> !IsLight(t[i])
    ensures Faithful(PairTail(t), t)
  {
    if t != [] && t[|t| - 1].Phase().Rem? {
      var n := |t| - 1;
      PairFaithful(t[..n]);
      NothingToReport(t[n..]);
      FaithfulAppend(t, n, []);
      assert Pair(t[..n]) + [] == Pair(t[..n]);
    } else {
      PairFaithful(t);
    }
  }

  lemma LightFaithful(rows: seq<Row>)
    requires IncreasingIds(rows) && rows != [] && IsLight(rows[0]) && Faithful(Timeline(rows[1..]), rows[1..])
    ensures Faithful(Timeline(rows), rows)
  {
  }

  lemma {:induction false} RunFaithful(rows: seq<Row>, n: nat)
    requires IncreasingIds(rows) && rows != [] && !IsLight(rows[0]) && n == TailPrefix(rows)
    requires Faithful(Timeline(rows[n..]), rows[n..])
    ensures Faithful(Timeline(rows), rows)
  {
    PairTailFaithful(rows[..n]);
    SplitAt(rows, n);
    FaithfulConcat(PairTail(rows[..n]), rows[..n], Timeline(rows[n..]), rows[n..]);
  }

  /** On any rows in run order, every clearly-Deep row yields exactly one cycle, and the
      cycles come in row order. */
  lemma {:induction false} TimelineFaithful(rows: seq<Row>)
    requires IncreasingIds(rows)
    ensures Faithful(Timeline(rows), rows)
    decreases |rows|
  {
    if rows != [] {
      if IsLight(rows[0]) {
        TimelineFaithful(rows[1..]);
        LightFaithful(rows);
      } else {
        TimelineFaithful(rows[TailPrefix(rows)..]);
        RunFaithful(rows, TailPrefix(rows));
      }
    }
  }
}
