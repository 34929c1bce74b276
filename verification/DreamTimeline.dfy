/** Recovering the Deep cycles from rows that carry counters but no phase. */
module DreamTimeline {
  import opened Common

  datatype Row = Row(
    runId: int, startedAt: string, finishedAt: Option<string>,
    watermark: int, inserted: int, merged: int, review: int,
    boosted: int, promotions: int, retirements: int)
  {
    /** The most specific signal first. */
    function Phase(): Phase {
      if promotions > 0 || retirements > 0 then Deep
      else if boosted > 0 then Rem
      else if watermark > 0 || inserted > 0 || merged > 0 || review > 0 then Light
      else Ambiguous
    }
  }

  datatype Phase = Deep | Rem | Light | Ambiguous

  datatype DeepCycle = DeepCycle(
    runId: int, startedAt: string, finishedAt: Option<string>,
    promotions: int, retirements: int, phaseInferred: bool)

  function CycleOf(r: Row, inferred: bool): DeepCycle {
    DeepCycle(r.runId, r.startedAt, r.finishedAt, r.promotions, r.retirements, inferred)
  }

  function IsLight(r: Row): bool {
    r.Phase().Light?
  }

  // ---- batches ----

  function LightPrefix(rows: seq<Row>): (n: nat)
    ensures n <= |rows| && (forall i :: 0 <= i < n ==> IsLight(rows[i]))
    ensures n < |rows| ==> !IsLight(rows[n])
  {
    if rows != [] && IsLight(rows[0]) then 1 + LightPrefix(rows[1..]) else 0
  }

  function TailPrefix(rows: seq<Row>): (n: nat)
    ensures n <= |rows| && (forall i :: 0 <= i < n ==> !IsLight(rows[i]))
    ensures n < |rows| ==> IsLight(rows[n])
  {
    if rows != [] && !IsLight(rows[0]) then 1 + TailPrefix(rows[1..]) else 0
  }

  /** The first batch: clearly-Light rows, then every row up to the next clearly-Light one. */
  function BatchLength(rows: seq<Row>): (n: nat)
    ensures n <= |rows| && (rows != [] ==> n > 0)
  {
    LightPrefix(rows) + TailPrefix(rows[LightPrefix(rows)..])
  }

  function Batches(rows: seq<Row>): seq<seq<Row>>
    decreases |rows|
  {
    if rows == [] then []
    else [rows[..BatchLength(rows)]] + Batches(rows[BatchLength(rows)..])
  }

  // ---- one batch's tail, read from the right ----

  predicate FillsRemSlot(r: Row) {
    r.Phase().Rem? || r.Phase().Ambiguous?
  }

  function Pair(t: seq<Row>): seq<DeepCycle> {
    if t == [] then []
    else
      var deep := t[|t| - 1];
      if |t| >= 2 && FillsRemSlot(t[|t| - 2]) then
        Pair(t[..|t| - 2]) + [CycleOf(deep, deep.Phase().Ambiguous? || t[|t| - 2].Phase().Ambiguous?)]
      else if deep.Phase().Deep? then
        Pair(t[..|t| - 1]) + [CycleOf(deep, false)]
      else
        Pair(t[..|t| - 1])
  }

  function PairTail(t: seq<Row>): seq<DeepCycle> {
    if t != [] && t[|t| - 1].Phase().Rem? then Pair(t[..|t| - 1]) else Pair(t)
  }

  /** The timeline: one maximal run of rows that are not clearly Light after another. */
  function Timeline(rows: seq<Row>): seq<DeepCycle>
    decreases |rows|
  {
    if rows == [] then []
    else if IsLight(rows[0]) then Timeline(rows[1..])
    else PairTail(rows[..TailPrefix(rows)]) + Timeline(rows[TailPrefix(rows)..])
  }

  function Reversed(cs: seq<DeepCycle>): seq<DeepCycle> {
    if cs == [] then [] else [cs[|cs| - 1]] + Reversed(cs[..|cs| - 1])
  }

  // ---- the source's loops ----

  /** Light rows, then other rows; `hasTail` says whether there are others. */
  ghost predicate IsPartialBatch(rows: seq<Row>, hasTail: bool) {
    && LightPrefix(rows) + TailPrefix(rows[LightPrefix(rows)..]) == |rows|
    && (hasTail <==> LightPrefix(rows) < |rows|)
  }

  lemma {:induction false} LightPrefixExtends(a: seq<Row>, b: seq<Row>)
    ensures LightPrefix(a + b) == if LightPrefix(a) < |a| then LightPrefix(a) else |a| + LightPrefix(b)
  {
    if a == [] {
      assert a + b == b;
    } else if IsLight(a[0]) {
      ConcatDrop(a, b, 1);
      LightPrefixExtends(a[1..], b);
    }
  }

  lemma {:induction false} TailPrefixExtends(a: seq<Row>, b: seq<Row>)
    ensures TailPrefix(a + b) == if TailPrefix(a) < |a| then TailPrefix(a) else |a| + TailPrefix(b)
  {
    if a == [] {
      assert a + b == b;
    } else if !IsLight(a[0]) {
      ConcatDrop(a, b, 1);
      TailPrefixExtends(a[1..], b);
    }
  }

  /** A light row after a tail closes the batch; any other row extends it. */
  lemma BatchExtends(current: seq<Row>, hasTail: bool, row: Row)
    requires IsPartialBatch(current, hasTail) && !(IsLight(row) && hasTail)
    ensures IsPartialBatch(current + [row], hasTail || !IsLight(row))
  {
    var n, all := LightPrefix(current), current + [row];
    LightPrefixExtends(current, [row]);
    if hasTail {
      TailPrefixExtends(current[n..], [row]);
      ConcatDrop(current, [row], n);
    } else if IsLight(row) {
      assert all[|all|..] == [];
    } else {
      assert all[n..] == [row];
    }
  }

  lemma {:induction false} BatchCloses(current: seq<Row>, rest: seq<Row>)
    requires IsPartialBatch(current, true) && rest != [] && IsLight(rest[0])
    ensures Batches(current + rest) == [current] + Batches(rest)
  {
    var n := LightPrefix(current);
    LightPrefixExtends(current, rest);
    TailPrefixExtends(current[n..], rest);
    ConcatDrop(current, rest, n);
    assert BatchLength(current + rest) == |current|;
    TakeDrop(current, rest);
  }

  /** What `batches` and `current` leave to do. */
  ghost predicate Splitting(rows: seq<Row>, batches: seq<seq<Row>>, current: seq<Row>, hasTail: bool, rest: seq<Row>) {
    IsPartialBatch(current, hasTail) && Batches(rows) == batches + Batches(current + rest)
  }

  lemma SplittingCloses(rows: seq<Row>, batches: seq<seq<Row>>, current: seq<Row>, rest: seq<Row>)
    requires Splitting(rows, batches, current, true, rest) && rest != [] && IsLight(rest[0])
    ensures Splitting(rows, batches + [current], [], false, rest)
  {
    BatchCloses(current, rest);
    assert [] + rest == rest;
    ConcatAssoc(batches, [current], Batches(rest));
  }

  lemma SplittingExtends(rows: seq<Row>, batches: seq<seq<Row>>, current: seq<Row>, hasTail: bool, rest: seq<Row>)
    requires Splitting(rows, batches, current, hasTail, rest) && rest != []
    requires !(IsLight(rest[0]) && hasTail)
    ensures Splitting(rows, batches, current + [rest[0]], hasTail || !IsLight(rest[0]), rest[1..])
  {
    BatchExtends(current, hasTail, rest[0]);
    ConcatAssoc(current, [rest[0]], rest[1..]);
    assert [rest[0]] + rest[1..] == rest;
  }

  lemma SplittingEnds(rows: seq<Row>, batches: seq<seq<Row>>, current: seq<Row>, hasTail: bool)
    requires Splitting(rows, batches, current, hasTail, [])
    ensures Batches(rows) == if current == [] then batches else batches + [current]
  {
    assert current + [] == current;
    if current != [] {
      assert current[..|current|] == current && Batches(current[|current|..]) == [];
    }
  }

  method SplitBatches(rows: seq<Row>) returns (batches: seq<seq<Row>>)
    ensures batches == Batches(rows)
  {
    batches := [];
    var current: seq<Row>, hasTail := [], false;
    SplittingStarts(rows);
    for i := 0 to |rows|
      invariant Splitting(rows, batches, current, hasTail, rows[i..])
    {
      var row := rows[i];
      ghost var rest := rows[i..];
      if row.Phase().Light? && hasTail {
        SplittingCloses(rows, batches, current, rest);
        batches := batches + [current];
        current, hasTail := [], false;
      }
      SplittingExtends(rows, batches, current, hasTail, rest);
      assert rest[1..] == rows[i + 1..];
      current := current + [row];
      if !row.Phase().Light? {
        hasTail := true;
      }
    }
    SplittingEnds(rows, batches, current, hasTail);
    if current != [] {
      batches := batches + [current];
    }
  }

  lemma SplittingStarts(rows: seq<Row>)
    ensures Splitting(rows, [], [], false, rows[0..])
  {
    assert [] + rows[0..] == rows;
    assert [] + Batches(rows) == Batches(rows);
  }

  method PairTailRows(tail: seq<Row>) returns (cycles: seq<DeepCycle>)
    ensures cycles == PairTail(tail)
  {
    if tail == [] {
      return [];
    }
    var deepTail := if tail[|tail| - 1].Phase().Rem? then tail[..|tail| - 1] else tail;
    cycles := [];
    var index := |deepTail|;
    assert deepTail[..index] == deepTail;
    while index >= 1
      invariant index <= |deepTail|
      invariant Pair(deepTail) == Pair(deepTail[..index]) + Reversed(cycles)
    {
      var deep := deepTail[index - 1];
      ghost var t, was := deepTail[..index], cycles;
      assert t[..index - 1] == deepTail[..index - 1];
      if index >= 2 && FillsRemSlot(deepTail[index - 2]) {
        var inferred := deep.Phase().Ambiguous? || deepTail[index - 2].Phase().Ambiguous?;
        cycles := cycles + [CycleOf(deep, inferred)];
        assert t[..index - 2] == deepTail[..index - 2];
        ReversedGrows(Pair(deepTail[..index - 2]), was, CycleOf(deep, inferred));
        index := index - 2;
        continue;
      }
      if deep.Phase().Deep? {
        cycles := cycles + [CycleOf(deep, false)];
        ReversedGrows(Pair(deepTail[..index - 1]), was, CycleOf(deep, false));
      }
      index := index - 1;
    }
    cycles := ReverseInto(cycles);
  }

  lemma ReversedGrows(a: seq<DeepCycle>, cs: seq<DeepCycle>, c: DeepCycle)
    ensures a + [c] + Reversed(cs) == a + Reversed(cs + [c])
  {
  }

  /** `list.reverse()`. */
  method ReverseInto(cs: seq<DeepCycle>) returns (r: seq<DeepCycle>)
    ensures r == Reversed(cs)
  {
    r := [];
    for i := 0 to |cs|
      invariant r == Reversed(cs[..i])
    {
      assert cs[..i + 1][..i] == cs[..i];
      r := [cs[i]] + r;
    }
    assert cs[..|cs|] == cs;
  }

  /** All-light rows give nothing, and a batch is light rows and then a tail. */
  lemma {:induction false} TimelineSkipsLight(rows: seq<Row>, n: nat)
    requires n <= LightPrefix(rows)
    ensures Timeline(rows) == Timeline(rows[n..])
  {
    if n == 0 {
      assert rows[0..] == rows;
    } else {
      TimelineSkipsLight(rows[1..], n - 1);
      assert rows[1..][n - 1..] == rows[n..];
    }
  }

  ghost function TailOf(batch: seq<Row>): seq<Row> {
    batch[LightPrefix(batch)..]
  }

  lemma {:induction false} LightPrefixOfSlice(rows: seq<Row>, m: nat)
    requires LightPrefix(rows) <= m <= |rows|
    ensures LightPrefix(rows[..m]) == LightPrefix(rows)
  {
    if m > 0 && IsLight(rows[0]) {
      LightPrefixOfSlice(rows[1..], m - 1);
      assert rows[..m][1..] == rows[1..][..m - 1];
    }
  }

  lemma TailOfBatch(rows: seq<Row>)
    ensures TailOf(rows[..BatchLength(rows)]) == rows[LightPrefix(rows)..][..TailPrefix(rows[LightPrefix(rows)..])]
  {
    LightPrefixOfSlice(rows, BatchLength(rows));
  }

  lemma TimelineOfTail(rows: seq<Row>)
    requires rows != [] ==> !IsLight(rows[0])
    ensures Timeline(rows) == PairTail(rows[..TailPrefix(rows)]) + Timeline(rows[TailPrefix(rows)..])
  {
  }

  lemma TimelineOfBatch(rows: seq<Row>)
    ensures Timeline(rows) == PairTail(TailOf(rows[..BatchLength(rows)])) + Timeline(rows[BatchLength(rows)..])
  {
    var n := LightPrefix(rows);
    TimelineSkipsLight(rows, n);
    TimelineOfTail(rows[n..]);
    TailOfBatch(rows);
    assert rows[n..][TailPrefix(rows[n..])..] == rows[BatchLength(rows)..];
  }

  ghost function TailsPaired(batches: seq<seq<Row>>): seq<DeepCycle> {
    if batches == [] then [] else PairTail(TailOf(batches[0])) + TailsPaired(batches[1..])
  }

  lemma {:induction false} TimelineByBatches(rows: seq<Row>)
    ensures Timeline(rows) == TailsPaired(Batches(rows))
    decreases |rows|
  {
    if rows != [] {
      TimelineOfBatch(rows);
      TimelineByBatches(rows[BatchLength(rows)..]);
    }
  }

  lemma NextBatch(cycles: seq<DeepCycle>, batches: seq<seq<Row>>)
    requires batches != []
    ensures cycles + TailsPaired(batches) == cycles + PairTail(TailOf(batches[0])) + TailsPaired(batches[1..])
  {
  }

  method DreamCycleTimeline(rows: seq<Row>) returns (cycles: seq<DeepCycle>)
    ensures cycles == Timeline(rows)
  {
    var batches := SplitBatches(rows);
    cycles := [];
    for b := 0 to |batches|
      invariant TailsPaired(batches) == cycles + TailsPaired(batches[b..])
    {
      var batch := batches[b];
      NextBatch(cycles, batches[b..]);
      assert batches[b..][1..] == batches[b + 1..];
      var prefixEnd := LightPrefixLength(batch);
      var tailCycles := PairTailRows(batch[prefixEnd..]);
      cycles := cycles + tailCycles;
    }
    TimelineByBatches(rows);
  }

  method LightPrefixLength(batch: seq<Row>) returns (prefixEnd: nat)
    ensures prefixEnd == LightPrefix(batch)
  {
    prefixEnd := 0;
    while prefixEnd < |batch| && batch[prefixEnd].Phase().Light?
      invariant prefixEnd <= LightPrefix(batch)
    {
      prefixEnd := prefixEnd + 1;
    }
  }
}
