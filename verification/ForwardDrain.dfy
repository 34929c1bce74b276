/** Draining the healed backlog round by round under no new inflow. */
module ForwardDrain {
  import opened Common
  import opened PromotionRanking
  import opened PromotionRankingTheorems

  datatype ForwardSimulation = ForwardSimulation(
    eligiblePoolSize: nat, rounds: nat, promotesAtRound: map<int, nat>, neverEligible: set<int>, unassigned: set<int>)

  function Ids(s: seq<Candidate>): set<int> {
    if s == [] then {} else {s[0].id} + Ids(s[1..])
  }

  lemma {:induction false} InIds(s: seq<Candidate>, id: int)
    ensures id in Ids(s) <==> exists c :: c in s && c.id == id
  {
    if s != [] {
      InIds(s[1..], id);
      if c :| c in s && c.id == id {
        assert c == s[0] || c in s[1..];
      }
    }
  }

  function Top(ranks: map<int, int>, topN: int): set<int> {
    set id | id in ranks && ranks[id] <= topN
  }

  /** What a round promotes of what remains. */
  type Pick = (seq<Candidate>, nat) -> set<int>

  /** The ids ranked `topN` or better at the round's scoring time. */
  function TopRanked(env: Env, topN: int, time: nat -> int): Pick {
    (remaining: seq<Candidate>, round: nat) => Top(RankDiagnosticCandidates(env, remaining, time(round)), topN)
  }

  function Without(s: seq<Candidate>, ids: set<int>): seq<Candidate> {
    Filter((c: Candidate) => c.id !in ids, s)
  }

  /** What is left after a number of rounds. */
  function Remaining(pick: Pick, pool: seq<Candidate>, rounds: nat): seq<Candidate> {
    if rounds == 0 then pool
    else
      var before := Remaining(pick, pool, rounds - 1);
      Without(before, pick(before, rounds))
  }

  function PromotedIn(pick: Pick, pool: seq<Candidate>, round: nat): set<int>
    requires round > 0
  {
    pick(Remaining(pick, pool, round - 1), round)
  }

  // ---- one round ----

  lemma {:induction false} FilterCounts(keep: Candidate -> bool, drop: set<int>, s: seq<Candidate>)
    requires DistinctIds(s) && drop <= Ids(s)
    requires forall c :: c in s ==> (keep(c) <==> c.id !in drop)
    ensures |Filter(keep, s)| == |s| - |drop|
  {
    if s == [] {
      assert drop == {};
    } else {
      var id := s[0].id;
      InIds(s[1..], id);
      forall c | c in s[1..] ensures c.id != id && (keep(c) <==> c.id !in drop - {id}) {
        assert c in s;
      }
      FilterCounts(keep, drop - {id}, s[1..]);
    }
  }

  lemma TopGrows(ranks: map<int, int>, id: int, rank: int, topN: int)
    requires id !in ranks
    ensures Top(ranks[id := rank], topN) == if rank <= topN then Top(ranks, topN) + {id} else Top(ranks, topN)
  {
  }

  lemma LastIsNew(sorted: seq<Candidate>)
    requires DistinctIds(sorted) && sorted != []
    ensures sorted[|sorted| - 1].id !in Enumerate(sorted[..|sorted| - 1])
  {
    EnumerateNumbers(sorted[..|sorted| - 1]);
  }

  /** `topN` of the ids are ranked `topN` or better, if there are that many. */
  lemma {:induction false} TopOfEnumeration(sorted: seq<Candidate>, topN: int)
    requires DistinctIds(sorted)
    ensures Top(Enumerate(sorted), topN) <= Ids(sorted)
    ensures |Top(Enumerate(sorted), topN)| == MaxInt(0, MinInt(topN, |sorted|))
  {
    if sorted == [] {
      assert Top(Enumerate(sorted), topN) == {};
    } else {
      var init, last := sorted[..|sorted| - 1], sorted[|sorted| - 1];
      TopOfEnumeration(init, topN);
      LastIsNew(sorted);
      TopGrows(Enumerate(init), last.id, |sorted|, topN);
      forall id | id in Ids(init) || id == last.id ensures id in Ids(sorted) {
        InIds(init, id);
        InIds(sorted, id);
      }
    }
  }

  /** A pick takes as many as it may and as there are, all of them from what remains. */
  ghost predicate Takes(pick: Pick, topN: int) {
    forall s, r :: DistinctIds(s) ==> pick(s, r) <= Ids(s) && |pick(s, r)| == MaxInt(0, MinInt(topN, |s|))
  }

  lemma TopRankedTakes(env: Env, topN: int, time: nat -> int)
    ensures Takes(TopRanked(env, topN, time), topN)
  {
    forall s: seq<Candidate>, r: nat | DistinctIds(s)
      ensures TopRanked(env, topN, time)(s, r) <= Ids(s)
      ensures |TopRanked(env, topN, time)(s, r)| == MaxInt(0, MinInt(topN, |s|))
    {
      var key := ScoreIn(env, s, time(r));
      SortSorts(key, s);
      SortKeepsDistinct(key, s);
      TopOfEnumeration(SortDescending(key, s), topN);
      forall id | id in Ids(SortDescending(key, s)) ensures id in Ids(s) {
        InIds(s, id);
        InIds(SortDescending(key, s), id);
        var c :| c in SortDescending(key, s) && c.id == id;
        SameElements(key, s, c);
      }
    }
  }

  lemma WithoutShrinks(s: seq<Candidate>, ids: set<int>)
    requires DistinctIds(s) && ids <= Ids(s)
    ensures DistinctIds(Without(s, ids))
    ensures Ids(Without(s, ids)) == Ids(s) - ids
    ensures |Without(s, ids)| == |s| - |ids|
  {
    var keep := (c: Candidate) => c.id !in ids;
    FilterKeepsDistinct(keep, s);
    FilterCounts(keep, ids, s);
    assert Without(s, ids) == Filter(keep, s);
    forall id ensures id in Ids(Filter(keep, s)) <==> id in Ids(s) - ids {
      InIds(s, id);
      InIds(Filter(keep, s), id);
    }
  }

  // ---- the whole drain ----

  function AtRound(promotes: map<int, nat>, round: nat): set<int> {
    set id | id in promotes && promotes[id] == round
  }

  function Stamped(promotes: map<int, nat>, ids: set<int>, round: nat): map<int, nat> {
    map id | id in promotes.Keys + ids :: if id in ids then round else promotes[id]
  }

  lemma StampedRounds(promotes: map<int, nat>, ids: set<int>, round: nat)
    requires promotes.Keys !! ids && forall id :: id in promotes ==> promotes[id] < round
    ensures AtRound(Stamped(promotes, ids, round), round) == ids
    ensures forall r :: 0 <= r < round ==> AtRound(Stamped(promotes, ids, round), r) == AtRound(promotes, r)
  {
    var promotes' := Stamped(promotes, ids, round);
    forall id ensures id in AtRound(promotes', round) <==> id in ids {
      assert id in promotes' <==> id in promotes || id in ids;
    }
    forall r, id | 0 <= r < round ensures id in AtRound(promotes', r) <==> id in AtRound(promotes, r) {
      assert id in promotes' <==> id in promotes || id in ids;
    }
  }

  /** Each round so far is stamped on exactly what it promoted. */
  ghost predicate Recorded(pick: Pick, pool: seq<Candidate>, promotes: map<int, nat>, rounds: nat) {
    && (forall id :: id in promotes ==> 1 <= promotes[id] <= rounds)
    && (forall r :: 1 <= r <= rounds ==> AtRound(promotes, r) == PromotedIn(pick, pool, r))
  }

  lemma RecordsRound(pick: Pick, pool: seq<Candidate>, promotes: map<int, nat>, rounds: nat)
    requires Recorded(pick, pool, promotes, rounds) && promotes.Keys !! PromotedIn(pick, pool, rounds + 1)
    ensures Recorded(pick, pool, Stamped(promotes, PromotedIn(pick, pool, rounds + 1), rounds + 1), rounds + 1)
  {
    StampedRounds(promotes, PromotedIn(pick, pool, rounds + 1), rounds + 1);
  }

  /** The drain stops when nothing is left or the rounds are used up, and not before. */
  ghost predicate StopsAt(pick: Pick, pool: seq<Candidate>, maxRounds: int, rounds: nat) {
    && (rounds < maxRounds ==> Remaining(pick, pool, rounds) == [])
    && (rounds > 0 ==> rounds <= maxRounds && Remaining(pick, pool, rounds - 1) != [])
  }

  ghost predicate Drained(pick: Pick, pool: seq<Candidate>, rounds: nat, promotes: map<int, nat>,
                          remaining: seq<Candidate>) {
    && DistinctIds(remaining) && remaining == Remaining(pick, pool, rounds)
    && Ids(remaining) <= Ids(pool) && promotes.Keys == Ids(pool) - Ids(remaining)
    && Recorded(pick, pool, promotes, rounds)
  }

  lemma PickTakes(pick: Pick, topN: int, s: seq<Candidate>, round: nat)
    requires Takes(pick, topN) && DistinctIds(s)
    ensures pick(s, round) <= Ids(s) && |pick(s, round)| == MaxInt(0, MinInt(topN, |s|))
  {
  }

  lemma RemainingNext(pick: Pick, pool: seq<Candidate>, rounds: nat)
    ensures Remaining(pick, pool, rounds + 1) ==
            Without(Remaining(pick, pool, rounds), PromotedIn(pick, pool, rounds + 1))
  {
  }

  lemma DrainsOn(pick: Pick, pool: seq<Candidate>, rounds: nat, promotes: map<int, nat>, remaining: seq<Candidate>)
    requires Drained(pick, pool, rounds, promotes, remaining) && pick(remaining, rounds + 1) <= Ids(remaining)
    ensures var promoted := pick(remaining, rounds + 1);
            Drained(pick, pool, rounds + 1, Stamped(promotes, promoted, rounds + 1), Without(remaining, promoted))
  {
    var promoted := pick(remaining, rounds + 1);
    assert promoted == PromotedIn(pick, pool, rounds + 1);
    WithoutShrinks(remaining, promoted);
    RecordsRound(pick, pool, promotes, rounds);
    RemainingNext(pick, pool, rounds);
  }

  method Drain(pick: Pick, pool: seq<Candidate>, ghost topN: int, maxRounds: int)
    returns (rounds: nat, promotes: map<int, nat>, remaining: seq<Candidate>)
    requires DistinctIds(pool) && Takes(pick, topN)
    ensures StopsAt(pick, pool, maxRounds, rounds)
    ensures Drained(pick, pool, rounds, promotes, remaining)
  {
    rounds, promotes, remaining := 0, map[], pool;
    while remaining != [] && rounds < maxRounds
      invariant Drained(pick, pool, rounds, promotes, remaining)
      invariant rounds > 0 ==> rounds <= maxRounds && Remaining(pick, pool, rounds - 1) != []
      decreases maxRounds - rounds
    {
      PickTakes(pick, topN, remaining, rounds + 1);
      DrainsOn(pick, pool, rounds, promotes, remaining);
      var promotedNow := pick(remaining, rounds + 1);
      rounds := rounds + 1;
      promotes := Stamped(promotes, promotedNow, rounds);
      remaining := Without(remaining, promotedNow);
    }
  }

  // ---- how long it takes and what it leaves ----

  /** How many candidates that many rounds can promote. */
  function Capacity(rounds: nat, t: nat): nat {
    if rounds == 0 then 0 else Capacity(rounds - 1, t) + t
  }

  lemma {:induction false} CapacityIsProduct(rounds: nat, t: nat)
    ensures Capacity(rounds, t) == rounds * t
  {
    if rounds > 0 {
      CapacityIsProduct(rounds - 1, t);
    }
  }

  /** What a round leaves of `n` candidates. */
  function Left(n: nat, topN: int): nat {
    n - MaxInt(0, MinInt(topN, n))
  }

  lemma NextSize(pick: Pick, pool: seq<Candidate>, topN: int, rounds: nat)
    requires DistinctIds(Remaining(pick, pool, rounds)) && Takes(pick, topN)
    ensures DistinctIds(Remaining(pick, pool, rounds + 1))
    ensures |Remaining(pick, pool, rounds + 1)| == Left(|Remaining(pick, pool, rounds)|, topN)
  {
    PickTakes(pick, topN, Remaining(pick, pool, rounds), rounds + 1);
    WithoutShrinks(Remaining(pick, pool, rounds), PromotedIn(pick, pool, rounds + 1));
    RemainingNext(pick, pool, rounds);
  }

  lemma {:induction false} SizesFollow(sizes: seq<nat>, topN: int)
    requires sizes != [] && forall r :: 0 <= r < |sizes| - 1 ==> sizes[r + 1] == Left(sizes[r], topN)
    ensures sizes[|sizes| - 1] == MaxInt(0, sizes[0] - Capacity(|sizes| - 1, MaxInt(0, topN)))
  {
    if |sizes| > 1 {
      SizesFollow(sizes[..|sizes| - 1], topN);
      assert sizes[|sizes| - 2 + 1] == Left(sizes[|sizes| - 2], topN);
    }
  }

  lemma {:induction false} RemainingDistinct(pick: Pick, pool: seq<Candidate>, topN: int, rounds: nat)
    requires DistinctIds(pool) && Takes(pick, topN)
    ensures DistinctIds(Remaining(pick, pool, rounds))
  {
    if rounds > 0 {
      var before := rounds - 1;
      RemainingDistinct(pick, pool, topN, before);
      NextSize(pick, pool, topN, before);
    }
  }

  lemma RemainingSize(pick: Pick, pool: seq<Candidate>, topN: int, rounds: nat)
    requires DistinctIds(pool) && Takes(pick, topN)
    ensures DistinctIds(Remaining(pick, pool, rounds))
    ensures |Remaining(pick, pool, rounds)| == MaxInt(0, |pool| - Capacity(rounds, MaxInt(0, topN)))
  {
    var sizes: seq<nat> := seq(rounds + 1, (r: nat) => |Remaining(pick, pool, r)|);
    forall r | 0 <= r < rounds ensures sizes[r + 1] == Left(sizes[r], topN) {
      RemainingDistinct(pick, pool, topN, r);
      NextSize(pick, pool, topN, r);
    }
    SizesFollow(sizes, topN);
    RemainingDistinct(pick, pool, topN, rounds);
  }

  /** Every round that the drain runs promotes `topN` candidates or all that remain. */
  lemma RoundPromotes(pick: Pick, pool: seq<Candidate>, topN: int, round: nat)
    requires DistinctIds(pool) && Takes(pick, topN) && round > 0
    ensures |PromotedIn(pick, pool, round)| == MaxInt(0, MinInt(topN, |Remaining(pick, pool, round - 1)|))
    ensures PromotedIn(pick, pool, round) <= Ids(Remaining(pick, pool, round - 1))
  {
    RemainingSize(pick, pool, topN, round - 1);
  }

  function CeilDiv(n: nat, t: nat): nat
    requires t > 0
  {
    (n + t - 1) / t
  }

  function Rounds(poolSize: nat, topN: int, maxRounds: int): int {
    if maxRounds <= 0 || poolSize == 0 then 0
    else if topN <= 0 then maxRounds
    else MinInt(maxRounds, CeilDiv(poolSize, topN))
  }

  lemma CeilDivBounds(n: nat, t: nat)
    requires t > 0
    ensures n <= CeilDiv(n, t) * t < n + t
  {
  }

  lemma TimesMonotone(a: int, b: int, t: nat)
    ensures a >= b ==> a * t >= b * t
  {
  }

  lemma CappedRounds(n: nat, t: nat, cap: nat, r: nat)
    requires t > 0 && r <= cap && (r < cap ==> n <= r * t) && (r > 0 ==> n > (r - 1) * t)
    ensures r == MinInt(cap, CeilDiv(n, t))
  {
    var c := CeilDiv(n, t);
    CeilDivBounds(n, t);
    TimesMonotone(r - 1, c, t);
    assert (c - 1) * t == c * t - t;
    TimesMonotone(c - 1, r, t);
  }

  lemma StopSizes(pick: Pick, pool: seq<Candidate>, topN: int, maxRounds: int, rounds: nat)
    requires DistinctIds(pool) && Takes(pick, topN) && StopsAt(pick, pool, maxRounds, rounds)
    ensures var t := MaxInt(0, topN);
            && (rounds < maxRounds ==> |pool| <= Capacity(rounds, t))
            && (rounds > 0 ==> rounds <= maxRounds && |pool| > Capacity(rounds - 1, t))
  {
    RemainingSize(pick, pool, topN, rounds);
    if rounds > 0 {
      RemainingSize(pick, pool, topN, rounds - 1);
    }
  }

  /** With a positive `topN` the number of rounds is the ceiling of the pool over `topN`,
      capped; with nothing to promote it is the whole cap, if anything is eligible. */
  lemma RoundCount(pick: Pick, pool: seq<Candidate>, topN: int, maxRounds: int, rounds: nat)
    requires DistinctIds(pool) && Takes(pick, topN) && StopsAt(pick, pool, maxRounds, rounds)
    ensures rounds == Rounds(|pool|, topN, maxRounds)
  {
    StopSizes(pick, pool, topN, maxRounds, rounds);
    CapacityIsProduct(rounds, MaxInt(0, topN));
    if rounds > 0 {
      CapacityIsProduct(rounds - 1, MaxInt(0, topN));
    }
    if maxRounds > 0 && topN > 0 {
      CappedRounds(|pool|, topN, maxRounds, rounds);
    }
  }

  /** Nothing is left unassigned exactly when the rounds allowed can hold the whole pool. */
  lemma NothingUnassignedIff(pick: Pick, pool: seq<Candidate>, topN: int, maxRounds: int, rounds: nat)
    requires DistinctIds(pool) && Takes(pick, topN) && StopsAt(pick, pool, maxRounds, rounds)
    ensures Ids(Remaining(pick, pool, rounds)) == {} <==> MaxInt(0, maxRounds) * MaxInt(0, topN) >= |pool|
  {
    var t, cap := MaxInt(0, topN), MaxInt(0, maxRounds);
    StopSizes(pick, pool, topN, maxRounds, rounds);
    RemainingSize(pick, pool, topN, rounds);
    CapacityIsProduct(rounds, t);
    TimesMonotone(cap, rounds, t);
  }

  // ---- the simulation ----

  lemma EligibleIds(env: Env, candidates: seq<Candidate>)
    requires DistinctIds(candidates)
    ensures var eligible := DeepEligible(env, candidates);
            && DistinctIds(eligible)
            && Ids(Without(candidates, Ids(eligible))) == Ids(candidates) - Ids(eligible)
  {
    FilterKeepsDistinct((c: Candidate) => !(c.promoted || c.promotedFactId.Some? || !c.hasEmbedding || Undated(env, c)),
                        candidates);
    forall id | id in Ids(DeepEligible(env, candidates)) ensures id in Ids(candidates) {
      InIds(DeepEligible(env, candidates), id);
      InIds(candidates, id);
    }
    WithoutShrinks(candidates, Ids(DeepEligible(env, candidates)));
  }

  /** `_forward_simulate`: every eligible candidate is promoted at one round or left
      unassigned, never both; each round promotes the top ranks of what remained. */
  method ForwardSimulate(env: Env, candidates: seq<Candidate>, topN: int, maxRounds: int, time: nat -> int)
    returns (sim: ForwardSimulation)
    requires DistinctIds(candidates)
    ensures var eligible, pick := DeepEligible(env, candidates), TopRanked(env, topN, time);
            && sim.eligiblePoolSize == |eligible|
            && sim.neverEligible == Ids(candidates) - Ids(eligible)
            && sim.promotesAtRound.Keys + sim.unassigned == Ids(eligible)
            && sim.promotesAtRound.Keys !! sim.unassigned
            && Recorded(pick, eligible, sim.promotesAtRound, sim.rounds)
            && sim.unassigned == Ids(Remaining(pick, eligible, sim.rounds))
            && StopsAt(pick, eligible, maxRounds, sim.rounds)
    ensures sim.rounds == Rounds(sim.eligiblePoolSize, topN, maxRounds)
    ensures sim.unassigned == {} <==> MaxInt(0, maxRounds) * MaxInt(0, topN) >= sim.eligiblePoolSize
  {
    var eligible := DeepEligible(env, candidates);
    var eligibleIds := Ids(eligible);
    var neverEligible := Ids(Without(candidates, eligibleIds));
    EligibleIds(env, candidates);
    TopRankedTakes(env, topN, time);
    var rounds, promotes, remaining := Drain(TopRanked(env, topN, time), eligible, topN, maxRounds);
    RoundCount(TopRanked(env, topN, time), eligible, topN, maxRounds, rounds);
    NothingUnassignedIff(TopRanked(env, topN, time), eligible, topN, maxRounds, rounds);
    sim := ForwardSimulation(|eligible|, rounds, promotes, neverEligible, Ids(remaining));
  }
}
