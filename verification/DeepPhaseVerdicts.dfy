/** What the judge's own answers force a Deep pass to decide. */
module DeepPhaseVerdicts {
  import opened Common
  import opened DeepPhase
  import opened DeepPhaseTheorems
  import opened DeepPhaseAccounting

  // ---- facts against candidates ----

  ghost predicate Blocks(w: World, c: Candidate, n: Neighbor) {
    ContradictsFact(w, c, n) && n.confidence >= c.confidence
  }

  /** Neighbour `i` is the most confident blocking fact, then the most similar, then the first. */
  ghost predicate Vetoes(w: World, c: Candidate, ns: seq<Neighbor>, i: nat) {
    && i < |ns| && Blocks(w, c, ns[i])
    && forall j :: 0 <= j < |ns| && Blocks(w, c, ns[j]) ==>
         || ns[j].confidence < ns[i].confidence
         || (ns[j].confidence == ns[i].confidence && ns[j].similarity < ns[i].similarity)
         || (ns[j].confidence == ns[i].confidence && ns[j].similarity == ns[i].similarity && i <= j)
  }

  lemma BlockingLast(w: World, c: Candidate, ns: seq<Neighbor>)
    requires ns != []
    ensures var init, last := ns[..|ns| - 1], ns[|ns| - 1];
            Blocking(c, Contradicted(w, c, ns)) ==
            Blocking(c, Contradicted(w, c, init)) + if Blocks(w, c, last) then [last] else []
  {
    var init, last := ns[..|ns| - 1], ns[|ns| - 1];
    var kept := Contradicted(w, c, init);
    assert (kept + [last])[..|kept|] == kept;
  }

  lemma BlockedIff(w: World, c: Candidate, ns: seq<Neighbor>)
    ensures Blocking(c, Contradicted(w, c, ns)) != [] <==> exists n :: n in ns && Blocks(w, c, n)
  {
    var blocking := Blocking(c, Contradicted(w, c, ns));
    if n :| n in ns && Blocks(w, c, n) {
      assert n in blocking;
    }
    if blocking != [] {
      assert blocking[0] in blocking;
    }
  }

  /** Adding a last blocking fact to a list with a winner. */
  lemma WinnerLast(a: seq<Neighbor>, last: Neighbor)
    requires a != []
    ensures Winner(a + [last]) == if Stronger(last, Winner(a)) then last else Winner(a)
  {
    assert (a + [last])[..|a|] == a;
  }

  lemma {:induction false} WinnerVetoes(w: World, c: Candidate, ns: seq<Neighbor>) returns (i: nat)
    requires Blocking(c, Contradicted(w, c, ns)) != []
    ensures Vetoes(w, c, ns, i) && ns[i] == Winner(Blocking(c, Contradicted(w, c, ns)))
  {
    assert ns != [];
    var init, last := ns[..|ns| - 1], ns[|ns| - 1];
    var before := Blocking(c, Contradicted(w, c, init));
    BlockingLast(w, c, ns);
    BlockedIff(w, c, init);
    if before == [] {
      i := |ns| - 1;
      forall j | 0 <= j < |init| ensures !Blocks(w, c, ns[j]) {
        assert init[j] in init;
      }
    } else {
      var k := WinnerVetoes(w, c, init);
      if Blocks(w, c, last) {
        WinnerLast(before, last);
      }
      i := if Blocks(w, c, last) && Stronger(last, init[k]) then |ns| - 1 else k;
      forall j | 0 <= j < |init| ensures init[j] == ns[j] { }
    }
  }

  lemma OneVeto(w: World, c: Candidate, ns: seq<Neighbor>, i: nat, j: nat)
    requires Vetoes(w, c, ns, i) && Vetoes(w, c, ns, j)
    ensures i == j
  {
  }

  ghost predicate RetiredBy(w: World, c: Candidate, id: int, fact: int) {
    c.id == id && exists i: nat :: Vetoes(w, c, w.neighbors(c), i) && w.neighbors(c)[i].factId == fact
  }

  lemma PassRetires(w: World, s: State, c: Candidate, id: int, fact: int)
    ensures Retirement(id, fact) in Consider(w, s, c).state.retirements <==>
            Retirement(id, fact) in s.retirements || RetiredBy(w, c, id, fact)
  {
    var ns := w.neighbors(c);
    ConsiderCases(w, s, c);
    if Blocking(c, Contradicted(w, c, ns)) != [] {
      var i := WinnerVetoes(w, c, ns);
      if RetiredBy(w, c, id, fact) {
        var j: nat :| Vetoes(w, c, ns, j) && ns[j].factId == fact;
        OneVeto(w, c, ns, i, j);
      }
    } else {
      BlockedIff(w, c, ns);
      forall j: nat ensures !Vetoes(w, c, ns, j) {
        assert j < |ns| ==> ns[j] in ns;
      }
    }
  }

  lemma {:induction false} RetirementsOf(w: World, selected: seq<Candidate>, id: int, fact: int)
    ensures Retirement(id, fact) in Resolve(w, selected).retirements <==>
            exists m :: 0 <= m < |selected| && RetiredBy(w, selected[m], id, fact)
  {
    if selected != [] {
      var init, c := selected[..|selected| - 1], selected[|selected| - 1];
      RetirementsOf(w, init, id, fact);
      PassRetires(w, Resolve(w, init), c, id, fact);
      assert forall m :: 0 <= m < |init| ==> init[m] == selected[m];
      if m :| 0 <= m < |selected| && RetiredBy(w, selected[m], id, fact) {
        assert m == |init| || RetiredBy(w, init[m], id, fact);
      }
    }
  }

  /** A fact retires a candidate exactly when the judge said, with confidence at least one
      half, that they contradict, the fact is at least as confident as the candidate, and it
      is the most confident such fact, then the most similar, then the nearest in order. */
  lemma RetirementIff(w: World, selected: seq<Candidate>, id: int, fact: int)
    ensures Retirement(id, fact) in Decide(w, selected) <==>
            exists m :: 0 <= m < |selected| && RetiredBy(w, selected[m], id, fact)
  {
    RetirementsOf(w, selected, id, fact);
    var s := Resolve(w, selected);
    assert forall d :: d in Promotions(s.pending) ==> d.Promotion?;
  }

  /** So one blocking fact is enough to keep a candidate out. */
  lemma BlockedIsRetired(w: World, selected: seq<Candidate>, m: nat, n: Neighbor)
    requires m < |selected| && n in w.neighbors(selected[m]) && n.confidence >= selected[m].confidence
    requires w.judgeFact(selected[m], n).contradicts && w.judgeFact(selected[m], n).confidence >= 0.5
    ensures exists fact :: Retirement(selected[m].id, fact) in Decide(w, selected)
  {
    var c := selected[m];
    BlockedIff(w, c, w.neighbors(c));
    var i := WinnerVetoes(w, c, w.neighbors(c));
    RetirementIff(w, selected, c.id, w.neighbors(c)[i].factId);
    assert RetiredBy(w, c, c.id, w.neighbors(c)[i].factId);
  }

  // ---- candidates against one another ----

  ghost predicate ContradictsPending(w: World, c: Candidate, p: Pending) {
    w.judgePending(c, p.candidate).contradicts && w.judgePending(c, p.candidate).confidence >= 0.5
  }

  /** `k` is the first pending promotion that `c` contradicts without being more confident. */
  ghost predicate LosesFirstTo(w: World, c: Candidate, ps: seq<Pending>, k: nat) {
    && k < |ps| && ContradictsPending(w, c, ps[k]) && c.confidence <= ps[k].candidate.confidence
    && forall i :: 0 <= i < k && ContradictsPending(w, c, ps[i]) ==> c.confidence > ps[i].candidate.confidence
  }

  /** A candidate no fact blocks is retired under that promotion. */
  lemma LoserJoinsFirst(w: World, s: State, c: Candidate, k: nat)
    requires forall n :: n in w.neighbors(c) ==> !Blocks(w, c, n)
    requires LosesFirstTo(w, c, s.pending, k)
    ensures Consider(w, s, c).state == s.(pending := AfterLoss(w, c, s.pending, k))
  {
    BlockedIff(w, c, w.neighbors(c));
    ConsiderCases(w, s, c);
    assert LosesTo(w, c, s.pending[k]);
  }

  /** With none to lose to it is pending itself, last, and those it contradicts are not. */
  lemma WinnerIsPending(w: World, s: State, c: Candidate)
    requires forall n :: n in w.neighbors(c) ==> !Blocks(w, c, n)
    requires forall p :: p in s.pending && ContradictsPending(w, c, p) ==> c.confidence > p.candidate.confidence
    ensures var after := Consider(w, s, c).state;
            && after.retirements == s.retirements
            && after.pending != [] && after.pending[|after.pending| - 1].candidate == c
            && forall p :: p in after.pending[..|after.pending| - 1] <==>
                           p in s.pending && !ContradictsPending(w, c, p)
  {
    BlockedIff(w, c, w.neighbors(c));
    ConsiderCases(w, s, c);
    var ps, after := s.pending, Consider(w, s, c).state.pending;
    assert forall k :: 0 <= k < |ps| ==> ps[k] in ps && !LosesTo(w, c, ps[k]);
    assert after[..|after| - 1] == Kept(w, c, ps);
  }

  // ---- a judge that never objects ----

  /** Every judgment is "no", or not confident enough. */
  ghost predicate NoObjection(w: World, selected: seq<Candidate>) {
    && (forall c, n :: c in selected && n in w.neighbors(c) ==>
          !w.judgeFact(c, n).contradicts || w.judgeFact(c, n).confidence < 0.5)
    && (forall c, d :: c in selected && d in selected ==>
          !w.judgePending(c, d).contradicts || w.judgePending(c, d).confidence < 0.5)
  }

  function Bare(cs: seq<Candidate>): (r: seq<Pending>)
    ensures |r| == |cs| && forall i :: 0 <= i < |r| ==> r[i] == Pending(cs[i], [], [])
  {
    seq(|cs|, i requires 0 <= i < |cs| => Pending(cs[i], [], []))
  }

  lemma {:induction false} NothingContradicted(w: World, c: Candidate, ns: seq<Neighbor>)
    requires forall n :: n in ns ==> !w.judgeFact(c, n).contradicts || w.judgeFact(c, n).confidence < 0.5
    ensures Contradicted(w, c, ns) == []
  {
    if ns != [] {
      NothingContradicted(w, c, ns[..|ns| - 1]);
      assert ns[|ns| - 1] in ns;
    }
  }

  lemma {:induction false} AllKept(w: World, c: Candidate, ps: seq<Pending>)
    requires forall p :: p in ps ==> !Against(w, c, p)
    ensures Kept(w, c, ps) == ps && Beaten(w, c, ps) == []
  {
    if ps != [] {
      AllKept(w, c, ps[..|ps| - 1]);
      assert ps[|ps| - 1] in ps;
    }
  }

  lemma BarePass(w: World, init: seq<Candidate>, c: Candidate)
    requires NoObjection(w, init + [c])
    ensures Consider(w, State(Bare(init), []), c).state == State(Bare(init + [c]), [])
    ensures CallsFor(w, State(Bare(init), []), c) == |w.neighbors(c)| + |init|
  {
    var ps := Bare(init);
    assert c in init + [c];
    NothingContradicted(w, c, w.neighbors(c));
    forall p | p in ps ensures !Against(w, c, p) {
      var i :| 0 <= i < |ps| && ps[i] == p;
      assert init[i] in init + [c];
    }
    AllKept(w, c, ps);
    assert FactIds([]) == [];
    assert Bare(init + [c]) == ps + [Pending(c, [], [])];
  }

  /** How many neighbours the pass looks at. */
  function NeighborCount(w: World, selected: seq<Candidate>): nat {
    if selected == [] then 0
    else NeighborCount(w, selected[..|selected| - 1]) + |w.neighbors(selected[|selected| - 1])|
  }

  lemma {:induction false} NoObjectionResolves(w: World, selected: seq<Candidate>)
    requires NoObjection(w, selected)
    ensures Resolve(w, selected) == State(Bare(selected), [])
    ensures 2 * Calls(w, selected) == 2 * NeighborCount(w, selected) + |selected| * (|selected| - 1)
  {
    if selected == [] {
      assert Bare(selected) == [];
    } else {
      var init, c := selected[..|selected| - 1], selected[|selected| - 1];
      assert selected == init + [c];
      NoObjectionResolves(w, init);
      BarePass(w, init, c);
      OneMorePair(|init|);
    }
  }

  lemma OneMorePair(n: nat)
    ensures n * (n - 1) + 2 * n == (n + 1) * n
  {
  }

  /** Then the pass promotes every candidate as it stands, in order, exactly as when judging
      is deferred, and asks about every neighbour and every pair once: the bound is attained. */
  lemma NoObjectionPromotesAll(w: World, selected: seq<Candidate>)
    requires NoObjection(w, selected)
    ensures Decide(w, selected) == seq(|selected|, i requires 0 <= i < |selected| =>
                                         Promotion(selected[i].id, [], []))
    ensures 2 * Calls(w, selected) == 2 * NeighborCount(w, selected) + |selected| * (|selected| - 1)
  {
    NoObjectionResolves(w, selected);
  }

  lemma {:induction false} NeighborsCounted(w: World, selected: seq<Candidate>, k: nat)
    requires forall c :: c in selected ==> |w.neighbors(c)| == k
    ensures NeighborCount(w, selected) == |selected| * k
  {
    if selected != [] {
      var init := selected[..|selected| - 1];
      NeighborsCounted(w, init, k);
      assert selected[|selected| - 1] in selected;
      assert (|init| + 1) * k == |init| * k + k;
    }
  }

  /** And a full selection of candidates with full neighbourhoods costs what the estimate
      charges for each row, the four other calls included. */
  lemma EstimateIsAttained(w: World, selected: seq<Candidate>, topN: nat, neighborK: nat, rowCount: nat)
    requires NoObjection(w, selected) && |selected| == topN
    requires forall c :: c in selected ==> |w.neighbors(c)| == neighborK
    ensures rowCount * (Calls(w, selected) + 4) == EstimateProviderCalls(rowCount, topN, neighborK)
  {
    NoObjectionResolves(w, selected);
    NeighborsCounted(w, selected, neighborK);
    assert Calls(w, selected) + 4 == 1 + topN * neighborK + topN * (topN - 1) / 2 + 3;
  }
}
