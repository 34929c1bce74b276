/** Attributing promoted facts to the Deep cycles that created them, by time.  Starts are
    already floored to the second. */
module PromotionAttribution {
  import opened Common

  datatype Fact = Fact(candidateId: int, createdAt: int)

  datatype Attribution = Attribution(
    byCandidate: map<int, nat>, perCycleCounts: seq<nat>, unattributed: seq<int>, consistent: bool)

  /** Cycle `k` owns the time from its start up to the next start; the last has no end. */
  predicate Owns(starts: seq<int>, k: nat, created: int) {
    k < |starts| && starts[k] <= created && (k + 1 < |starts| ==> created < starts[k + 1])
  }

  /** The first owner, if any. */
  function Owner(starts: seq<int>, created: int, from: nat): (r: Option<nat>)
    requires from <= |starts|
    ensures r.Some? ==> from <= r.value && Owns(starts, r.value, created)
    ensures forall k :: from <= k < (if r.Some? then r.value else |starts|) ==> !Owns(starts, k, created)
    decreases |starts| - from
  {
    if from == |starts| then None
    else if Owns(starts, from, created) then Some(from)
    else Owner(starts, created, from + 1)
  }

  /** Walking up from a start that is not after `created` meets an owner, in any order of starts. */
  lemma {:induction false} OwnerAbove(starts: seq<int>, created: int, k: nat) returns (o: nat)
    requires k < |starts| && starts[k] <= created
    ensures k <= o && Owns(starts, o, created)
    decreases |starts| - k
  {
    if Owns(starts, k, created) {
      o := k;
    } else {
      o := OwnerAbove(starts, created, k + 1);
    }
  }

  ghost predicate BeforeAll(starts: seq<int>, created: int) {
    forall k :: 0 <= k < |starts| ==> created < starts[k]
  }

  /** Only a fact created before every cycle stays unattributed, even if the starts are not
      in order. */
  lemma UnattributedIffBeforeAll(starts: seq<int>, created: int)
    ensures Owner(starts, created, 0).None? <==> BeforeAll(starts, created)
  {
    if k :| 0 <= k < |starts| && starts[k] <= created {
      var o := OwnerAbove(starts, created, k);
    }
  }

  ghost predicate Ordered(starts: seq<int>) {
    forall i, j :: 0 <= i < j < |starts| ==> starts[i] <= starts[j]
  }

  /** With starts in order the owner is the last cycle that had begun. */
  lemma OwnerIsLastBegun(starts: seq<int>, created: int, k: nat)
    requires Ordered(starts) && Owner(starts, created, 0) == Some(k)
    ensures forall j :: 0 <= j < |starts| ==> (starts[j] <= created <==> j <= k)
  {
  }

  method FindOwner(starts: seq<int>, created: int) returns (owner: Option<nat>)
    ensures owner == Owner(starts, created, 0)
  {
    for index := 0 to |starts|
      invariant Owner(starts, created, 0) == Owner(starts, created, index)
    {
      if created < starts[index] {
        continue;
      }
      if index + 1 == |starts| || created < starts[index + 1] {
        return Some(index);
      }
    }
    owner := None;
  }

  function CountOwned(starts: seq<int>, facts: seq<Fact>, k: nat): nat {
    if facts == [] then 0
    else
      CountOwned(starts, facts[..|facts| - 1], k)
        + if Owner(starts, facts[|facts| - 1].createdAt, 0) == Some(k) then 1 else 0
  }

  function Unowned(starts: seq<int>, facts: seq<Fact>): seq<int> {
    if facts == [] then []
    else
      var last := facts[|facts| - 1];
      Unowned(starts, facts[..|facts| - 1]) + if Owner(starts, last.createdAt, 0).None? then [last.candidateId] else []
  }

  /** A candidate promoted twice keeps its later attribution. */
  function ByCandidate(starts: seq<int>, facts: seq<Fact>): map<int, nat> {
    if facts == [] then map[]
    else
      var last := facts[|facts| - 1];
      var owner := Owner(starts, last.createdAt, 0);
      var before := ByCandidate(starts, facts[..|facts| - 1]);
      if owner.Some? then before[last.candidateId := owner.value] else before
  }

  /** The fact is the last of its candidate that some cycle owns. */
  ghost predicate LastOwned(starts: seq<int>, facts: seq<Fact>, n: nat) {
    && n < |facts| && Owner(starts, facts[n].createdAt, 0).Some?
    && forall m :: n < m < |facts| && facts[m].candidateId == facts[n].candidateId ==>
         Owner(starts, facts[m].createdAt, 0).None?
  }

  lemma LastOwnedExtends(starts: seq<int>, facts: seq<Fact>, n: nat)
    requires n < |facts| - 1
    ensures LastOwned(starts, facts, n) <==>
            LastOwned(starts, facts[..|facts| - 1], n)
            && (facts[|facts| - 1].candidateId == facts[n].candidateId ==>
                  Owner(starts, facts[|facts| - 1].createdAt, 0).None?)
  {
    var init := facts[..|facts| - 1];
    assert forall m :: 0 <= m < |init| ==> init[m] == facts[m];
    if LastOwned(starts, facts, n) {
      forall m | n < m < |init| && init[m].candidateId == init[n].candidateId
        ensures Owner(starts, init[m].createdAt, 0).None?
      {
        assert facts[m] == init[m];
      }
    }
    if LastOwned(starts, init, n) {
      forall m | n < m < |init| && facts[m].candidateId == facts[n].candidateId
        ensures Owner(starts, facts[m].createdAt, 0).None?
      {
        assert facts[m] == init[m];
      }
    }
  }

  /** A candidate is attributed to the cycle of its last owned fact. */
  lemma {:induction false} LastOwnedFactDecides(starts: seq<int>, facts: seq<Fact>, n: nat)
    requires LastOwned(starts, facts, n)
    ensures facts[n].candidateId in ByCandidate(starts, facts)
    ensures Owner(starts, facts[n].createdAt, 0) == Some(ByCandidate(starts, facts)[facts[n].candidateId])
  {
    if n < |facts| - 1 {
      LastOwnedExtends(starts, facts, n);
      LastOwnedFactDecides(starts, facts[..|facts| - 1], n);
    }
  }

  /** And only a candidate with an owned fact is attributed. */
  lemma {:induction false} AttributedHasOwnedFact(starts: seq<int>, facts: seq<Fact>, id: int) returns (n: nat)
    requires id in ByCandidate(starts, facts)
    ensures LastOwned(starts, facts, n) && facts[n].candidateId == id
  {
    var last := |facts| - 1;
    if facts[last].candidateId == id && Owner(starts, facts[last].createdAt, 0).Some? {
      n := last;
    } else {
      n := AttributedHasOwnedFact(starts, facts[..last], id);
      LastOwnedExtends(starts, facts, n);
    }
  }

  /** The unattributed are the candidates of the facts created before every cycle, in order. */
  lemma {:induction false} UnownedAreEarly(starts: seq<int>, facts: seq<Fact>, id: int)
    ensures id in Unowned(starts, facts) <==>
            exists n :: 0 <= n < |facts| && facts[n].candidateId == id && BeforeAll(starts, facts[n].createdAt)
  {
    if facts != [] {
      var init, last := facts[..|facts| - 1], facts[|facts| - 1];
      UnownedAreEarly(starts, init, id);
      UnattributedIffBeforeAll(starts, last.createdAt);
      if n :| 0 <= n < |facts| && facts[n].candidateId == id && BeforeAll(starts, facts[n].createdAt) {
        assert n < |init| ==> init[n] == facts[n];
      }
      if n :| 0 <= n < |init| && init[n].candidateId == id && BeforeAll(starts, init[n].createdAt) {
        assert facts[n] == init[n];
      }
    }
  }

  method PromotionEvents(starts: seq<int>, promotions: seq<int>, facts: seq<Fact>) returns (r: Attribution)
    requires |promotions| == |starts|
    ensures |r.perCycleCounts| == |starts|
    ensures forall k :: 0 <= k < |starts| ==> r.perCycleCounts[k] == CountOwned(starts, facts, k)
    ensures r.unattributed == Unowned(starts, facts) && r.byCandidate == ByCandidate(starts, facts)
    ensures r.consistent <==>
            r.unattributed == [] && forall k :: 0 <= k < |starts| ==> r.perCycleCounts[k] == promotions[k]
  {
    var byCandidate: map<int, nat>, unattributed: seq<int> := map[], [];
    var counts: seq<nat> := seq(|starts|, _ => 0);
    for n := 0 to |facts|
      invariant |counts| == |starts|
      invariant forall k :: 0 <= k < |starts| ==> counts[k] == CountOwned(starts, facts[..n], k)
      invariant unattributed == Unowned(starts, facts[..n]) && byCandidate == ByCandidate(starts, facts[..n])
    {
      assert facts[..n + 1][..n] == facts[..n];
      var owner := FindOwner(starts, facts[n].createdAt);
      if owner.None? {
        unattributed := unattributed + [facts[n].candidateId];
      } else {
        byCandidate := byCandidate[facts[n].candidateId := owner.value];
        counts := counts[owner.value := counts[owner.value] + 1];
      }
    }
    assert facts[..|facts|] == facts;
    var consistent := unattributed == [] && forall k | 0 <= k < |starts| :: counts[k] == promotions[k];
    r := Attribution(byCandidate, counts, unattributed, consistent);
  }

  // ---- every fact is counted once ----

  function Sum(s: seq<int>): int {
    if s == [] then 0 else Sum(s[..|s| - 1]) + s[|s| - 1]
  }

  function Counts(starts: seq<int>, facts: seq<Fact>, n: nat): seq<int>
    requires n <= |starts|
  {
    seq(n, k requires 0 <= k < n => CountOwned(starts, facts, k))
  }

  lemma {:induction false} CountsGrow(starts: seq<int>, facts: seq<Fact>, n: nat)
    requires facts != [] && n <= |starts|
    ensures var owner := Owner(starts, facts[|facts| - 1].createdAt, 0);
            Sum(Counts(starts, facts, n)) ==
            Sum(Counts(starts, facts[..|facts| - 1], n)) + if owner.Some? && owner.value < n then 1 else 0
  {
    if n > 0 {
      CountsGrow(starts, facts, n - 1);
      assert Counts(starts, facts, n)[..n - 1] == Counts(starts, facts, n - 1);
      assert Counts(starts, facts[..|facts| - 1], n)[..n - 1] == Counts(starts, facts[..|facts| - 1], n - 1);
    }
  }

  lemma {:induction false} NothingCounted(starts: seq<int>, n: nat)
    requires n <= |starts|
    ensures Sum(Counts(starts, [], n)) == 0
  {
    if n > 0 {
      NothingCounted(starts, n - 1);
      assert Counts(starts, [], n)[..n - 1] == Counts(starts, [], n - 1);
    }
  }

  /** Attributed and unattributed facts add up to all of them; so a consistent attribution
      accounts for exactly the promotions the cycles reported. */
  lemma {:induction false} FactsAreConserved(starts: seq<int>, facts: seq<Fact>)
    ensures Sum(Counts(starts, facts, |starts|)) + |Unowned(starts, facts)| == |facts|
  {
    if facts == [] {
      NothingCounted(starts, |starts|);
    } else {
      FactsAreConserved(starts, facts[..|facts| - 1]);
      CountsGrow(starts, facts, |starts|);
    }
  }

  lemma ConsistentAccountsForAll(starts: seq<int>, promotions: seq<int>, facts: seq<Fact>)
    requires |promotions| == |starts| && Unowned(starts, facts) == []
    requires forall k :: 0 <= k < |starts| ==> CountOwned(starts, facts, k) == promotions[k]
    ensures Sum(promotions) == |facts|
  {
    FactsAreConserved(starts, facts);
    assert Counts(starts, facts, |starts|) == promotions;
  }
}
