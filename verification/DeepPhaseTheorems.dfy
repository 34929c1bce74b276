/** What one Deep pass guarantees about its decisions, for every judge. */
module DeepPhaseTheorems {
  import opened DeepPhase

  // ---- no judged contradiction survives ----

  /** No pending promotion was judged, with confidence at least one half, to contradict one
      ahead of it. */
  ghost predicate ContradictionFree(w: World, ps: seq<Pending>) {
    forall i, j :: 0 <= i < j < |ps| ==>
      var judgment := w.judgePending(ps[j].candidate, ps[i].candidate);
      !(judgment.contradicts && judgment.confidence >= 0.5)
  }

  lemma FreeConcat(w: World, a: seq<Pending>, b: seq<Pending>)
    requires ContradictionFree(w, a) && ContradictionFree(w, b)
    requires forall x, y :: x in a && y in b ==> !Against(w, y.candidate, x)
    ensures ContradictionFree(w, a + b)
  {
    forall i, j | 0 <= i < j < |a + b| ensures !Against(w, (a + b)[j].candidate, (a + b)[i]) {
      if i < |a| <= j {
        assert a[i] in a && b[j - |a|] in b;
      }
    }
  }

  lemma {:induction false} KeptFree(w: World, c: Candidate, ps: seq<Pending>)
    requires ContradictionFree(w, ps)
    ensures ContradictionFree(w, Kept(w, c, ps))
  {
    if ps != [] {
      var init, last := ps[..|ps| - 1], ps[|ps| - 1];
      KeptFree(w, c, init);
      forall x | x in Kept(w, c, init) ensures !Against(w, last.candidate, x) {
        var i :| 0 <= i < |init| && init[i] == x;
        assert !Against(w, ps[|ps| - 1].candidate, ps[i]);
      }
      FreeConcat(w, Kept(w, c, init), [last]);
    }
  }

  /** The pending list of a pass that `c` loses at position `k`. */
  function AfterLoss(w: World, c: Candidate, ps: seq<Pending>, k: nat): seq<Pending>
    requires k < |ps|
  {
    Kept(w, c, ps[..k]) + ([ps[k].(retiredCandidates := ps[k].retiredCandidates + [c.id])] + ps[k + 1..])
  }

  lemma LossFree(w: World, c: Candidate, ps: seq<Pending>, k: nat)
    requires ContradictionFree(w, ps) && k < |ps|
    ensures ContradictionFree(w, AfterLoss(w, c, ps, k))
  {
    var a := Kept(w, c, ps[..k]);
    var b := [ps[k].(retiredCandidates := ps[k].retiredCandidates + [c.id])] + ps[k + 1..];
    KeptFree(w, c, ps[..k]);
    forall i | 0 <= i < |b| ensures b[i].candidate == ps[k + i].candidate { }
    forall i, j | 0 <= i < j < |b| ensures !Against(w, b[j].candidate, b[i]) {
      assert !Against(w, ps[k + j].candidate, ps[k + i]);
    }
    forall x, y | x in a && y in b ensures !Against(w, y.candidate, x) {
      var i :| 0 <= i < |ps[..k]| && ps[..k][i] == x;
      var j :| 0 <= j < |b| && b[j] == y;
      assert !Against(w, ps[k + j].candidate, ps[i]);
    }
    FreeConcat(w, a, b);
  }

  /** How a pass ends: the three ways, without the fold. */
  lemma ConsiderCases(w: World, s: State, c: Candidate)
    ensures var contradicted := Contradicted(w, c, w.neighbors(c));
            var ps, k := s.pending, LossIndex(w, c, s.pending);
            var pass := Consider(w, s, c);
            if Blocking(c, contradicted) != [] then
              pass == Pass(s.(retirements := s.retirements
                              + [Retirement(c.id, Winner(Blocking(c, contradicted)).factId)]), [])
            else if k < |ps| then
              pass == Pass(s.(pending := AfterLoss(w, c, ps, k)), Beaten(w, c, ps[..k]))
            else
              pass == Pass(s.(pending := Kept(w, c, ps)
                + [Pending(c, FactIds(contradicted), SortedSet(GroupIds(Beaten(w, c, ps))))]), [])
  {
  }

  lemma ConsiderFree(w: World, s: State, c: Candidate)
    requires ContradictionFree(w, s.pending)
    ensures ContradictionFree(w, Consider(w, s, c).state.pending)
  {
    ConsiderCases(w, s, c);
    var contradicted := Contradicted(w, c, w.neighbors(c));
    var ps, k := s.pending, LossIndex(w, c, s.pending);
    if Blocking(c, contradicted) == [] {
      if k < |ps| {
        LossFree(w, c, ps, k);
      } else {
        KeptFree(w, c, ps);
        FreeConcat(w, Kept(w, c, ps), [Pending(c, FactIds(contradicted), SortedSet(GroupIds(Beaten(w, c, ps))))]);
      }
    }
  }

  /** The promotions of a cycle are pairwise free of judged contradictions. */
  lemma {:induction false} PromotionsContradictionFree(w: World, selected: seq<Candidate>)
    ensures ContradictionFree(w, Resolve(w, selected).pending)
  {
    if selected != [] {
      PromotionsContradictionFree(w, selected[..|selected| - 1]);
      ConsiderFree(w, Resolve(w, selected[..|selected| - 1]), selected[|selected| - 1]);
    }
  }

  // ---- confidence decides ----

  ghost predicate RetiresWeaker(selected: seq<Candidate>, p: Pending, id: int) {
    exists d :: d in selected && d.id == id && d.confidence <= p.candidate.confidence
  }

  ghost predicate ContradictsFact(w: World, c: Candidate, n: Neighbor) {
    w.judgeFact(c, n).contradicts && w.judgeFact(c, n).confidence >= 0.5
  }

  ghost predicate RetiresWeakerFact(w: World, p: Pending, fact: int) {
    exists n :: n in w.neighbors(p.candidate) && n.factId == fact
      && ContradictsFact(w, p.candidate, n) && n.confidence < p.candidate.confidence
  }

  ghost predicate Justified(w: World, selected: seq<Candidate>, p: Pending) {
    && p.candidate in selected
    && (forall id :: id in p.retiredCandidates ==> RetiresWeaker(selected, p, id))
    && (forall f :: f in p.retiredFacts <==> RetiresWeakerFact(w, p, f))
    && (forall n :: n in w.neighbors(p.candidate) && ContradictsFact(w, p.candidate, n) ==>
          n.confidence < p.candidate.confidence)
  }

  lemma {:induction false} GroupIdsMember(ps: seq<Pending>, id: int)
    requires id in GroupIds(ps)
    ensures exists p :: p in ps && (id == p.candidate.id || id in p.retiredCandidates)
  {
    if ps != [] {
      var last := ps[|ps| - 1];
      if id !in [last.candidate.id] + last.retiredCandidates {
        GroupIdsMember(ps[..|ps| - 1], id);
      } else {
        assert last in ps;
      }
    }
  }

  lemma AbsorbsWeaker(w: World, selected: seq<Candidate>, c: Candidate, ps: seq<Pending>, added: Pending)
    requires forall p :: p in ps ==> Justified(w, selected, p) && p.candidate.confidence < c.confidence
    requires added.candidate == c && added.retiredCandidates == SortedSet(GroupIds(ps))
    ensures forall id :: id in added.retiredCandidates ==> RetiresWeaker(selected, added, id)
  {
    forall id | id in added.retiredCandidates ensures RetiresWeaker(selected, added, id) {
      GroupIdsMember(ps, id);
      var p :| p in ps && (id == p.candidate.id || id in p.retiredCandidates);
      if id == p.candidate.id {
        assert p.candidate in selected;
      } else {
        assert RetiresWeaker(selected, p, id);
        var d :| d in selected && d.id == id && d.confidence <= p.candidate.confidence;
      }
    }
  }

  lemma FreshFacts(w: World, c: Candidate, added: Pending)
    requires Blocking(c, Contradicted(w, c, w.neighbors(c))) == []
    requires added.candidate == c && added.retiredFacts == FactIds(Contradicted(w, c, w.neighbors(c)))
    ensures forall f :: f in added.retiredFacts <==> RetiresWeakerFact(w, added, f)
    ensures forall n :: n in w.neighbors(c) && ContradictsFact(w, c, n) ==> n.confidence < c.confidence
  {
    var contradicted := Contradicted(w, c, w.neighbors(c));
    forall f | RetiresWeakerFact(w, added, f) ensures f in FactIds(contradicted) {
      var n :| n in w.neighbors(c) && n.factId == f && ContradictsFact(w, c, n);
      var i :| 0 <= i < |contradicted| && contradicted[i] == n;
      assert FactIds(contradicted)[i] == f;
    }
  }

  lemma JustifiedGrows(w: World, selected: seq<Candidate>, c: Candidate, p: Pending)
    requires Justified(w, selected, p)
    ensures Justified(w, selected + [c], p)
  {
  }

  lemma LoserIsWeaker(w: World, selected: seq<Candidate>, c: Candidate, p: Pending)
    requires Justified(w, selected, p) && LosesTo(w, c, p)
    ensures Justified(w, selected + [c], p.(retiredCandidates := p.retiredCandidates + [c.id]))
  {
  }

  lemma ConsiderJustified(w: World, selected: seq<Candidate>, s: State, c: Candidate)
    requires forall p :: p in s.pending ==> Justified(w, selected, p)
    ensures forall p :: p in Consider(w, s, c).state.pending ==> Justified(w, selected + [c], p)
  {
    ConsiderCases(w, s, c);
    var contradicted := Contradicted(w, c, w.neighbors(c));
    var ps, k := s.pending, LossIndex(w, c, s.pending);
    forall p | p in ps ensures Justified(w, selected + [c], p) {
      JustifiedGrows(w, selected, c, p);
    }
    if Blocking(c, contradicted) == [] {
      if k < |ps| {
        assert ps[k] in ps;
        LoserIsWeaker(w, selected, c, ps[k]);
      } else {
        var beaten := Beaten(w, c, ps);
        var added := Pending(c, FactIds(contradicted), SortedSet(GroupIds(beaten)));
        forall p | p in beaten ensures Justified(w, selected, p) && p.candidate.confidence < c.confidence {
          var i :| 0 <= i < |ps| && ps[i] == p;
          assert !LosesTo(w, c, ps[i]);
        }
        AbsorbsWeaker(w, selected, c, beaten, added);
        FreshFacts(w, c, added);
        forall id | id in added.retiredCandidates ensures RetiresWeaker(selected + [c], added, id) {
          assert RetiresWeaker(selected, added, id);
          var d :| d in selected && d.id == id && d.confidence <= c.confidence;
          assert d in selected + [c];
        }
      }
    }
  }

  /** A promotion retires only candidates at most as confident as itself, directly or
      through what they had retired, and exactly the facts it was judged to contradict, all
      of them strictly less confident. */
  lemma {:induction false} PromotionsRetireWeaker(w: World, selected: seq<Candidate>)
    ensures forall p :: p in Resolve(w, selected).pending ==> Justified(w, selected, p)
  {
    if selected != [] {
      var init, c := selected[..|selected| - 1], selected[|selected| - 1];
      PromotionsRetireWeaker(w, init);
      ConsiderJustified(w, init, Resolve(w, init), c);
      assert init + [c] == selected;
    }
  }

  ghost predicate IsHead(ps: seq<Pending>, c: Candidate) {
    exists p :: p in ps && p.candidate == c
  }

  lemma StrongestStays(w: World, s: State, c: Candidate, d: Candidate)
    requires IsHead(s.pending, c) && d.confidence <= c.confidence
    ensures IsHead(Consider(w, s, d).state.pending, c)
  {
    ConsiderCases(w, s, d);
    var ps, k := s.pending, LossIndex(w, d, s.pending);
    var p :| p in ps && p.candidate == c;
    var i :| 0 <= i < |ps| && ps[i] == p;
    var ps' := Consider(w, s, d).state.pending;
    if Blocking(d, Contradicted(w, d, w.neighbors(d))) != [] {
      assert p in ps';
    } else if k < |ps| {
      if i < k {
        assert !LosesTo(w, d, ps[i]);
        assert p in ps[..k];
        assert p in Kept(w, d, ps[..k]);
        assert p in ps';
      } else if i == k {
        assert ps[k].(retiredCandidates := ps[k].retiredCandidates + [d.id]) in ps';
      } else {
        assert ps[k + 1..][i - k - 1] == p;
        assert p in ps';
      }
    } else {
      assert !LosesTo(w, d, ps[i]);
      assert p in Kept(w, d, ps);
      assert p in ps';
    }
  }

  /** A candidate of maximum confidence, once pending, is promoted. */
  lemma {:induction false} StrongestIsPromoted(w: World, selected: seq<Candidate>, m: nat, c: Candidate)
    requires m <= |selected| && IsHead(Resolve(w, selected[..m]).pending, c)
    requires forall d :: d in selected ==> d.confidence <= c.confidence
    ensures IsHead(Resolve(w, selected).pending, c)
  {
    if m < |selected| {
      var init := selected[..|selected| - 1];
      assert init[..m] == selected[..m];
      StrongestIsPromoted(w, init, m, c);
      StrongestStays(w, Resolve(w, init), c, selected[|selected| - 1]);
    } else {
      assert selected[..m] == selected;
    }
  }
}
