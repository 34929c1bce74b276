/** Which candidates a Deep cycle promotes, and the diagnostic ranking that mirrors it.
    Scores are real; the recency decay and the ratio of logarithms in them are arbitrary
    functions, and Python's sort is a stable insertion sort. */
module PromotionRanking {
  import opened Common

  datatype Candidate = Candidate(
    id: int, importance: int, hitCount: int, lastSeenAt: int, remBoost: real, category: string,
    occurredAt: Option<string>, mentionedAt: Option<string>,
    promoted: bool, promotedFactId: Option<int>, hasEmbedding: bool)

  /** `canonical` is the partial-date parser both gates share, `recency` the decayed age, and
      `hitShare` a hit count on the log scale of the largest one. */
  datatype Env = Env(canonical: Option<string> -> Option<string>, recency: int -> real, hitShare: (int, int) -> real)

  function Filter<T(!new)>(keep: T -> bool, s: seq<T>): (r: seq<T>)
    ensures forall x :: x in r <==> x in s && keep(x)
  {
    if s == [] then []
    else (if keep(s[0]) then [s[0]] else []) + Filter(keep, s[1..])
  }

  predicate Undated(env: Env, c: Candidate) {
    c.category == "event" && env.canonical(c.occurredAt).None? && env.canonical(c.mentionedAt).None?
  }

  /** What `select_promotions` scores of the pool it is given. */
  function Dated(env: Env, pool: seq<Candidate>): seq<Candidate> {
    Filter((c: Candidate) => !Undated(env, c), pool)
  }

  /** The unpromoted candidates with an embedding. */
  function Unpromoted(all: seq<Candidate>): seq<Candidate> {
    Filter((c: Candidate) => !c.promoted && c.promotedFactId.None? && c.hasEmbedding, all)
  }

  function DeepEligible(env: Env, all: seq<Candidate>): seq<Candidate> {
    Filter((c: Candidate) => !(c.promoted || c.promotedFactId.Some? || !c.hasEmbedding || Undated(env, c)), all)
  }

  // ---- scoring and sorting ----

  function MaxHitCount(pool: seq<Candidate>): (m: int)
    requires pool != []
    ensures forall c :: c in pool ==> c.hitCount <= m
    ensures exists c :: c in pool && c.hitCount == m
  {
    if |pool| == 1 then pool[0].hitCount
    else
      assert pool == [pool[0]] + pool[1..];
      MaxInt(pool[0].hitCount, MaxHitCount(pool[1..]))
  }

  function ComputeScore(env: Env, c: Candidate, maxHitCount: int, now: int): real {
    var hitCountNorm := if maxHitCount > 0 then env.hitShare(c.hitCount, maxHitCount) else 0.0;
    env.recency(now - c.lastSeenAt) + c.importance as real / 10.0 + hitCountNorm + c.remBoost
  }

  function ScoreIn(env: Env, pool: seq<Candidate>, now: int): Candidate -> real {
    if pool == [] then (c: Candidate) => 0.0
    else
      var maxHitCount := MaxHitCount(pool);
      (c: Candidate) => ComputeScore(env, c, maxHitCount, now)
  }

  /** Where a new first element goes: before the first one it does not score below. */
  function InsertAt(key: Candidate -> real, c: Candidate, sorted: seq<Candidate>): (p: nat)
    ensures p <= |sorted|
    ensures forall i :: 0 <= i < p ==> key(sorted[i]) > key(c)
    ensures p < |sorted| ==> key(sorted[p]) <= key(c)
  {
    if sorted != [] && key(sorted[0]) > key(c) then 1 + InsertAt(key, c, sorted[1..]) else 0
  }

  /** Highest score first, equal scores in their original order. */
  function SortDescending(key: Candidate -> real, s: seq<Candidate>): seq<Candidate> {
    if s == [] then []
    else
      var sorted := SortDescending(key, s[1..]);
      var p := InsertAt(key, s[0], sorted);
      sorted[..p] + [s[0]] + sorted[p..]
  }

  function SelectPromotions(env: Env, pool: seq<Candidate>, now: int, topN: int): seq<Candidate> {
    var dated := Dated(env, pool);
    SortDescending(ScoreIn(env, dated, now), dated)[..Cut(|SortDescending(ScoreIn(env, dated, now), dated)|, topN)]
  }

  /** Ranks from one, by id; a repeated id keeps its last rank. */
  function Enumerate(sorted: seq<Candidate>): map<int, int> {
    if sorted == [] then map[]
    else Enumerate(sorted[..|sorted| - 1])[sorted[|sorted| - 1].id := |sorted|]
  }

  function RankDiagnosticCandidates(env: Env, candidates: seq<Candidate>, scoringTime: int): map<int, int> {
    Enumerate(SortDescending(ScoreIn(env, candidates, scoringTime), candidates))
  }

  // ---- the sort, against a definition of rank that does not sort ----

  function CountAbove(key: Candidate -> real, s: seq<Candidate>, x: real): nat {
    if s == [] then 0 else (if key(s[0]) > x then 1 else 0) + CountAbove(key, s[1..], x)
  }

  function CountAtLeast(key: Candidate -> real, s: seq<Candidate>, x: real): nat {
    if s == [] then 0 else (if key(s[0]) >= x then 1 else 0) + CountAtLeast(key, s[1..], x)
  }

  /** How many candidates outrank the one at `k`: those with a higher score, and those with
      an equal one that come earlier. */
  function Outranking(key: Candidate -> real, s: seq<Candidate>, k: nat): nat
    requires k < |s|
  {
    CountAtLeast(key, s[..k], key(s[k])) + CountAbove(key, s[k + 1..], key(s[k]))
  }

  ghost predicate Descending(key: Candidate -> real, s: seq<Candidate>) {
    forall i, j :: 0 <= i < j < |s| ==> key(s[i]) >= key(s[j])
  }

  lemma {:induction false} CountAboveConcat(key: Candidate -> real, a: seq<Candidate>, b: seq<Candidate>, x: real)
    ensures CountAbove(key, a + b, x) == CountAbove(key, a, x) + CountAbove(key, b, x)
  {
    if a == [] {
      assert a + b == b;
    } else {
      ConcatDrop(a, b, 1);
      CountAboveConcat(key, a[1..], b, x);
    }
  }

  /** In a sorted sequence the elements above the new one are exactly those before its place. */
  lemma {:induction false} InsertAtCounts(key: Candidate -> real, c: Candidate, sorted: seq<Candidate>)
    requires Descending(key, sorted)
    ensures InsertAt(key, c, sorted) == CountAbove(key, sorted, key(c))
  {
    if sorted != [] {
      InsertAtCounts(key, c, sorted[1..]);
      if key(sorted[0]) <= key(c) {
        NoneAbove(key, sorted, key(c));
      }
    }
  }

  lemma {:induction false} NoneAbove(key: Candidate -> real, s: seq<Candidate>, x: real)
    requires forall i :: 0 <= i < |s| ==> key(s[i]) <= x
    ensures CountAbove(key, s, x) == 0
  {
    if s != [] {
      NoneAbove(key, s[1..], x);
    }
  }

  lemma {:induction false} SortSorts(key: Candidate -> real, s: seq<Candidate>)
    ensures |SortDescending(key, s)| == |s|
    ensures Descending(key, SortDescending(key, s))
    ensures forall x :: CountAbove(key, SortDescending(key, s), x) == CountAbove(key, s, x)
  {
    if s != [] {
      var sorted := SortDescending(key, s[1..]);
      SortSorts(key, s[1..]);
      var p := InsertAt(key, s[0], sorted);
      forall x ensures CountAbove(key, sorted[..p] + [s[0]] + sorted[p..], x) == CountAbove(key, s, x) {
        CountAboveConcat(key, sorted[..p] + [s[0]], sorted[p..], x);
        CountAboveConcat(key, sorted[..p], [s[0]], x);
        CountAboveConcat(key, sorted[..p], sorted[p..], x);
        SplitAt(sorted, p);
      }
    }
  }

  lemma Inserted<T>(s: seq<T>, p: nat, x: T, r: nat)
    requires p <= |s| && r < |s|
    ensures (s[..p] + [x] + s[p..])[p] == x
    ensures (s[..p] + [x] + s[p..])[if r < p then r else r + 1] == s[r]
  {
  }

  /** A new first element outranks the ones it does not score below. */
  lemma OutrankingTail(key: Candidate -> real, s: seq<Candidate>, k: nat)
    requires 0 < k < |s|
    ensures Outranking(key, s, k) == Outranking(key, s[1..], k - 1) + if key(s[0]) >= key(s[k]) then 1 else 0
  {
    assert s[..k][1..] == s[1..][..k - 1];
    assert s[k + 1..] == s[1..][k..];
  }

  /** Every candidate sits in the sorted order at the number of candidates that outrank it. */
  lemma {:induction false} SortPlaces(key: Candidate -> real, s: seq<Candidate>, k: nat)
    requires k < |s|
    ensures Outranking(key, s, k) < |SortDescending(key, s)|
    ensures SortDescending(key, s)[Outranking(key, s, k)] == s[k]
  {
    var sorted := SortDescending(key, s[1..]);
    var p := InsertAt(key, s[0], sorted);
    SortSorts(key, s[1..]);
    if k == 0 {
      InsertAtCounts(key, s[0], sorted);
      assert s[..0] == [];
    } else {
      SortPlaces(key, s[1..], k - 1);
      OutrankingTail(key, s, k);
      Inserted(sorted, p, s[0], Outranking(key, s[1..], k - 1));
    }
  }
}
