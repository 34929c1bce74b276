/** The selection of a Deep cycle and the diagnostic ranking agree, and neither loses a
    better candidate. */
module PromotionRankingTheorems {
  import opened Common
  import opened PromotionRanking

  predicate DistinctIds(s: seq<Candidate>) {
    forall i, j :: 0 <= i < j < |s| ==> s[i].id != s[j].id
  }

  // ---- both filters keep the same candidates ----

  lemma {:induction false} FiltersAgree(env: Env, all: seq<Candidate>)
    ensures Dated(env, Unpromoted(all)) == DeepEligible(env, all)
  {
    if all != [] {
      FiltersAgree(env, all[1..]);
      var c := all[0];
      if !c.promoted && c.promotedFactId.None? && c.hasEmbedding {
        assert Unpromoted(all) == [c] + Unpromoted(all[1..]);
        assert Unpromoted(all)[1..] == Unpromoted(all[1..]);
      } else {
        assert Unpromoted(all) == Unpromoted(all[1..]);
        assert DeepEligible(env, all) == DeepEligible(env, all[1..]);
      }
    }
  }

  lemma {:induction false} FilterKeepsDistinct(keep: Candidate -> bool, s: seq<Candidate>)
    requires DistinctIds(s)
    ensures DistinctIds(Filter(keep, s))
  {
    if s != [] {
      FilterKeepsDistinct(keep, s[1..]);
      var rest := Filter(keep, s[1..]);
      forall i | 0 <= i < |rest| ensures rest[i].id != s[0].id {
        assert rest[i] in s[1..];
      }
    }
  }

  // ---- the enumeration gives each candidate its place ----

  /** Every place of the sorted order is filled from the pool. */
  lemma {:induction false} SortOrigin(key: Candidate -> real, s: seq<Candidate>, i: nat) returns (k: nat)
    requires i < |SortDescending(key, s)|
    ensures k < |s| && Outranking(key, s, k) == i && SortDescending(key, s)[i] == s[k]
  {
    SortSorts(key, s);
    SortSorts(key, s[1..]);
    var sorted := SortDescending(key, s[1..]);
    var p := InsertAt(key, s[0], sorted);
    InsertAtCounts(key, s[0], sorted);
    if i == p {
      k := 0;
      assert s[..0] == [];
    } else {
      var j := SortOrigin(key, s[1..], if i < p then i else i - 1);
      k := j + 1;
      assert s[..k][1..] == s[1..][..j];
      assert s[k + 1..] == s[1..][k..];
    }
  }

  lemma SortKeepsDistinct(key: Candidate -> real, s: seq<Candidate>)
    requires DistinctIds(s)
    ensures DistinctIds(SortDescending(key, s))
  {
    var sorted := SortDescending(key, s);
    forall i, j | 0 <= i < j < |sorted| ensures sorted[i].id != sorted[j].id {
      var k := SortOrigin(key, s, i);
      var l := SortOrigin(key, s, j);
    }
  }

  lemma {:induction false} EnumerateNumbers(sorted: seq<Candidate>)
    requires DistinctIds(sorted)
    ensures forall i :: 0 <= i < |sorted| ==>
              sorted[i].id in Enumerate(sorted) && Enumerate(sorted)[sorted[i].id] == i + 1
    ensures forall id :: id in Enumerate(sorted) ==> exists i :: 0 <= i < |sorted| && sorted[i].id == id
  {
    if sorted != [] {
      EnumerateNumbers(sorted[..|sorted| - 1]);
    }
  }

  /** The diagnostic rank of a candidate is one more than the number that outrank it. */
  lemma RankCountsOutranking(env: Env, candidates: seq<Candidate>, scoringTime: int, k: nat)
    requires DistinctIds(candidates) && k < |candidates|
    ensures var ranks := RankDiagnosticCandidates(env, candidates, scoringTime);
            && candidates[k].id in ranks
            && ranks[candidates[k].id] == Outranking(ScoreIn(env, candidates, scoringTime), candidates, k) + 1
  {
    var key := ScoreIn(env, candidates, scoringTime);
    SortPlaces(key, candidates, k);
    SortKeepsDistinct(key, candidates);
    EnumerateNumbers(SortDescending(key, candidates));
  }

  // ---- the theorems ----

  /** Selected exactly when ranked `topN` or better. */
  ghost predicate TopRanks(pool: seq<Candidate>, selected: seq<Candidate>, ranks: map<int, int>, topN: int) {
    forall c :: c in pool ==> (c in selected <==> c.id in ranks && ranks[c.id] <= topN)
  }

  /** In rank order, from rank one. */
  ghost predicate InRankOrder(pool: seq<Candidate>, selected: seq<Candidate>, ranks: map<int, int>) {
    forall i :: 0 <= i < |selected| ==>
      selected[i] in pool && selected[i].id in ranks && ranks[selected[i].id] == i + 1
  }

  lemma InCutIff(sorted: seq<Candidate>, cut: nat, c: Candidate)
    requires DistinctIds(sorted) && cut <= |sorted| && c in sorted
    ensures c.id in Enumerate(sorted)
    ensures c in sorted[..cut] <==> Enumerate(sorted)[c.id] <= cut
  {
    EnumerateNumbers(sorted);
    var i :| 0 <= i < |sorted| && sorted[i] == c;
    if c in sorted[..cut] {
      var j :| 0 <= j < cut && sorted[j] == c;
    } else {
      assert forall m :: 0 <= m < cut ==> sorted[m] in sorted[..cut];
    }
  }

  lemma {:induction false} SameElements(key: Candidate -> real, s: seq<Candidate>, c: Candidate)
    ensures c in s <==> c in SortDescending(key, s)
  {
    SortSorts(key, s);
    if c in s {
      var k :| 0 <= k < |s| && s[k] == c;
      SortPlaces(key, s, k);
    }
    if c in SortDescending(key, s) {
      var i :| 0 <= i < |s| && SortDescending(key, s)[i] == c;
      var k := SortOrigin(key, s, i);
    }
  }

  lemma {:induction false} CutIsInRankOrder(pool: seq<Candidate>, sorted: seq<Candidate>, cut: nat)
    requires DistinctIds(sorted) && cut <= |sorted| && forall c :: c in pool <==> c in sorted
    ensures InRankOrder(pool, sorted[..cut], Enumerate(sorted))
  {
    EnumerateNumbers(sorted);
  }

  lemma CutIsTopRanks(pool: seq<Candidate>, sorted: seq<Candidate>, topN: int)
    requires DistinctIds(sorted) && |pool| == |sorted| && forall c :: c in pool <==> c in sorted
    ensures TopRanks(pool, sorted[..Cut(|sorted|, topN)], Enumerate(sorted), topN) <==> topN >= 0 || |pool| + topN <= 0
  {
    var cut := Cut(|sorted|, topN);
    forall c | c in pool
      ensures c.id in Enumerate(sorted) && 1 <= Enumerate(sorted)[c.id] <= |sorted|
      ensures c in sorted[..cut] <==> Enumerate(sorted)[c.id] <= cut
    {
      InCutIff(sorted, cut, c);
      EnumerateNumbers(sorted);
    }
    if topN < 0 && |pool| + topN > 0 {
      assert sorted[0] in pool && sorted[0] in sorted[..cut];
    }
  }

  lemma {:induction false} SelectionCuts(key: Candidate -> real, pool: seq<Candidate>, topN: int)
    requires DistinctIds(pool)
    ensures var sorted := SortDescending(key, pool);
            var selected := sorted[..Cut(|sorted|, topN)];
            && InRankOrder(pool, selected, Enumerate(sorted))
            && (TopRanks(pool, selected, Enumerate(sorted), topN) <==> topN >= 0 || |pool| + topN <= 0)
  {
    var sorted := SortDescending(key, pool);
    assert |sorted| == |pool| by {
      SortSorts(key, pool);
    }
    SortKeepsDistinct(key, pool);
    forall c ensures c in pool <==> c in sorted {
      SameElements(key, pool, c);
    }
    CutIsInRankOrder(pool, sorted, Cut(|sorted|, topN));
    CutIsTopRanks(pool, sorted, topN);
  }

  /** `select_promotions` over the unpromoted, embedded pool is, in rank order, what the
      diagnostic ranking of the Deep-eligible candidates puts at rank `topN` or better, for
      any non-negative bound.  A negative one cuts from the end, so the two agree only when
      it cuts everything away. */
  lemma {:induction false} SelectionIsTopRanks(env: Env, all: seq<Candidate>, now: int, topN: int)
    requires DistinctIds(all)
    ensures var eligible := DeepEligible(env, all);
            var selected := SelectPromotions(env, Unpromoted(all), now, topN);
            var ranks := RankDiagnosticCandidates(env, eligible, now);
            && InRankOrder(eligible, selected, ranks)
            && (TopRanks(eligible, selected, ranks, topN) <==> topN >= 0 || |eligible| + topN <= 0)
  {
    var eligible := DeepEligible(env, all);
    FiltersAgree(env, all);
    FilterKeepsDistinct((c: Candidate) => !(c.promoted || c.promotedFactId.Some? || !c.hasEmbedding || Undated(env, c)),
                        all);
    SelectionCuts(ScoreIn(env, eligible, now), eligible, topN);
  }

  lemma {:induction false} CountAtLeastConcat(key: Candidate -> real, a: seq<Candidate>, b: seq<Candidate>, x: real)
    ensures CountAtLeast(key, a + b, x) == CountAtLeast(key, a, x) + CountAtLeast(key, b, x)
  {
    if a == [] {
      assert a + b == b;
    } else {
      ConcatDrop(a, b, 1);
      CountAtLeastConcat(key, a[1..], b, x);
    }
  }

  lemma {:induction false} AtLeastCountsMore(key: Candidate -> real, s: seq<Candidate>, x: real)
    ensures CountAtLeast(key, s, x) >= CountAbove(key, s, x)
  {
    if s != [] {
      AtLeastCountsMore(key, s[1..], x);
    }
  }

  /** Of two equal scores the one loaded first ranks better. */
  lemma TiesKeepLoadOrder(key: Candidate -> real, s: seq<Candidate>, j: nat, k: nat)
    requires j < k < |s| && key(s[j]) == key(s[k])
    ensures Outranking(key, s, j) < Outranking(key, s, k)
  {
    var x, mid := key(s[k]), s[j + 1..k];
    assert s[..k] == s[..j] + ([s[j]] + mid);
    CountAtLeastConcat(key, s[..j], [s[j]] + mid, x);
    assert ([s[j]] + mid)[1..] == mid;
    assert s[j + 1..] == mid + ([s[k]] + s[k + 1..]);
    CountAboveConcat(key, mid, [s[k]] + s[k + 1..], x);
    assert ([s[k]] + s[k + 1..])[1..] == s[k + 1..];
    AtLeastCountsMore(key, mid, x);
  }

  lemma BetterRankBetterCandidate(key: Candidate -> real, s: seq<Candidate>, k: nat, j: nat)
    requires k < |s| && j < |s| && Outranking(key, s, k) < Outranking(key, s, j)
    ensures key(s[j]) < key(s[k]) || (key(s[j]) == key(s[k]) && k < j)
  {
    assert key(s[j]) <= key(s[k]) by {
      SortSorts(key, s);
      SortPlaces(key, s, k);
      SortPlaces(key, s, j);
    }
    if key(s[j]) == key(s[k]) && j < k {
      TiesKeepLoadOrder(key, s, j, k);
    }
  }

  lemma CutByOutranking(key: Candidate -> real, s: seq<Candidate>, k: nat, cut: nat)
    requires DistinctIds(s) && k < |s| && cut <= |SortDescending(key, s)|
    ensures s[k] in SortDescending(key, s)[..cut] <==> Outranking(key, s, k) < cut
  {
    var sorted := SortDescending(key, s);
    SortPlaces(key, s, k);
    SortKeepsDistinct(key, s);
    EnumerateNumbers(sorted);
    InCutIff(sorted, cut, s[k]);
  }

  /** No eligible candidate left out outranks a selected one: it scores lower, or it scores
      the same and was loaded later. */
  lemma NothingBetterLeftOut(env: Env, pool: seq<Candidate>, now: int, topN: int, k: nat, j: nat)
    requires DistinctIds(pool)
    requires k < |Dated(env, pool)| && Dated(env, pool)[k] in SelectPromotions(env, pool, now, topN)
    requires j < |Dated(env, pool)| && Dated(env, pool)[j] !in SelectPromotions(env, pool, now, topN)
    ensures var dated := Dated(env, pool);
            var key := ScoreIn(env, dated, now);
            key(dated[j]) < key(dated[k]) || (key(dated[j]) == key(dated[k]) && k < j)
  {
    var dated := Dated(env, pool);
    var key := ScoreIn(env, dated, now);
    FilterKeepsDistinct((c: Candidate) => !Undated(env, c), pool);
    CutByOutranking(key, dated, k, Cut(|SortDescending(key, dated)|, topN));
    CutByOutranking(key, dated, j, Cut(|SortDescending(key, dated)|, topN));
    BetterRankBetterCandidate(key, dated, k, j);
  }

  // ---- who is eligible ----

  /** An event with neither a date of its own nor a derived one that parses. */
  predicate Dateless(env: Env, c: Candidate) {
    c.category == "event" && env.canonical(c.occurredAt) == None && env.canonical(c.mentionedAt) == None
  }

  /** Dateless events are never selected, whatever the bound; everything else of the pool is,
      when the bound has room for the whole pool. */
  lemma SelectionSkipsDateless(env: Env, pool: seq<Candidate>, now: int, topN: int, c: Candidate)
    ensures c in SelectPromotions(env, pool, now, topN) ==> c in pool && !Dateless(env, c)
    ensures topN >= |pool| && c in pool && !Dateless(env, c) ==> c in SelectPromotions(env, pool, now, topN)
  {
    var dated := Dated(env, pool);
    var key := ScoreIn(env, dated, now);
    SameElements(key, dated, c);
    SortSorts(key, dated);
    FilterShorter((c: Candidate) => !Undated(env, c), pool);
  }

  lemma {:induction false} FilterShorter(keep: Candidate -> bool, s: seq<Candidate>)
    ensures |Filter(keep, s)| <= |s|
  {
    if s != [] {
      FilterShorter(keep, s[1..]);
    }
  }

  /** The diagnostic gate keeps exactly the unpromoted, embedded candidates of that kind. */
  lemma EligibleIff(env: Env, all: seq<Candidate>, c: Candidate)
    ensures c in DeepEligible(env, all) <==>
            c in all && !c.promoted && c.promotedFactId == None && c.hasEmbedding && !Dateless(env, c)
  {
  }

  // ---- merit ----

  /** Recency never rises with age, and the share of a hit count rises with it. */
  ghost predicate Curves(env: Env) {
    && (forall a, b :: a <= b ==> env.recency(a) >= env.recency(b))
    && (forall m, a, b :: 0 <= a < b <= m ==> env.hitShare(a, m) < env.hitShare(b, m))
  }

  /** No worse on any count; ten points of importance weigh as much as one of boost. */
  ghost predicate NoWorse(c: Candidate, d: Candidate) {
    && c.lastSeenAt >= d.lastSeenAt && c.hitCount >= d.hitCount >= 0
    && c.importance as real + 10.0 * c.remBoost >= d.importance as real + 10.0 * d.remBoost
  }

  ghost predicate Better(env: Env, now: int, c: Candidate, d: Candidate) {
    && NoWorse(c, d)
    && (|| c.importance as real + 10.0 * c.remBoost > d.importance as real + 10.0 * d.remBoost
        || c.hitCount > d.hitCount
        || env.recency(now - c.lastSeenAt) > env.recency(now - d.lastSeenAt))
  }

  lemma MeritScores(env: Env, pool: seq<Candidate>, now: int, c: Candidate, d: Candidate)
    requires Curves(env) && c in pool && d in pool && NoWorse(c, d)
    ensures var key := ScoreIn(env, pool, now);
            key(c) >= key(d) && (Better(env, now, c, d) ==> key(c) > key(d))
  {
    var m := MaxHitCount(pool);
    assert m > 0 ==> env.hitShare(c.hitCount, m) >= env.hitShare(d.hitCount, m);
    assert now - c.lastSeenAt <= now - d.lastSeenAt;
  }

  /** So a candidate at least as important and boosted, as often hit and as recently seen as
      a selected one is selected too, unless they tie on everything and it was loaded later. */
  lemma MeritIsSelected(env: Env, pool: seq<Candidate>, now: int, topN: int, k: nat, j: nat)
    requires Curves(env) && DistinctIds(pool)
    requires k < |Dated(env, pool)| && j < |Dated(env, pool)|
    requires Dated(env, pool)[j] in SelectPromotions(env, pool, now, topN)
    requires var c, d := Dated(env, pool)[k], Dated(env, pool)[j];
             Better(env, now, c, d) || (NoWorse(c, d) && k < j)
    ensures Dated(env, pool)[k] in SelectPromotions(env, pool, now, topN)
  {
    var dated := Dated(env, pool);
    MeritScores(env, dated, now, dated[k], dated[j]);
    if dated[k] !in SelectPromotions(env, pool, now, topN) {
      NothingBetterLeftOut(env, pool, now, topN, j, k);
    }
  }
}
