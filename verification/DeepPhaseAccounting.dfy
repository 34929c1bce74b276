/** Where every selected candidate of a Deep pass ends up, and what the pass costs. */
module DeepPhaseAccounting {
  import opened Common
  import opened DeepPhase
  import opened DeepPhaseTheorems

  function Ids(cs: seq<Candidate>): (r: seq<int>)
    ensures |r| == |cs| && forall i :: 0 <= i < |r| ==> r[i] == cs[i].id
  {
    seq(|cs|, i requires 0 <= i < |cs| => cs[i].id)
  }

  /** The candidate ids a decision settles: promoted, retired under it, or retired by a fact. */
  function Settles(d: Decision): seq<int> {
    match d
    case Promotion(id, _, retired) => [id] + retired
    case Retirement(id, _) => [id]
  }

  function SettledIds(ds: seq<Decision>): seq<int> {
    if ds == [] then [] else SettledIds(ds[..|ds| - 1]) + Settles(ds[|ds| - 1])
  }

  function Flat(parts: seq<seq<Pending>>): seq<Pending> {
    if parts == [] then [] else Flat(parts[..|parts| - 1]) + parts[|parts| - 1]
  }

  /** The pending groups discarded in the pass of each selected candidate. */
  function DroppedParts(w: World, selected: seq<Candidate>): seq<seq<Pending>> {
    seq(|selected|, i requires 0 <= i < |selected| => Consider(w, Resolve(w, selected[..i]), selected[i]).dropped)
  }

  function Dropped(w: World, selected: seq<Candidate>): seq<Pending> {
    Flat(DroppedParts(w, selected))
  }

  ghost predicate Distinct(s: seq<int>) {
    forall i, j :: 0 <= i < j < |s| ==> s[i] != s[j]
  }

  // ---- bags of ids ----

  lemma SettledLast(ds: seq<Decision>, d: Decision)
    ensures SettledIds(ds + [d]) == SettledIds(ds) + Settles(d)
  {
  }

  lemma {:induction false} GroupConcat(a: seq<Pending>, b: seq<Pending>)
    ensures GroupIds(a + b) == GroupIds(a) + GroupIds(b)
  {
    if b == [] {
      assert a + b == a;
    } else {
      var init, last := b[..|b| - 1], b[|b| - 1];
      ConcatLast(a, b);
      GroupConcat(a, init);
      ConcatAssoc(GroupIds(a), GroupIds(init), [last.candidate.id] + last.retiredCandidates);
    }
  }

  lemma {:induction false} SettledWithPromotions(ds: seq<Decision>, ps: seq<Pending>)
    ensures SettledIds(ds + Promotions(ps)) == SettledIds(ds) + GroupIds(ps)
  {
    if ps == [] {
      assert ds + Promotions(ps) == ds;
    } else {
      var init, last := ps[..|ps| - 1], ps[|ps| - 1];
      var d := Promotion(last.candidate.id, last.retiredFacts, last.retiredCandidates);
      SettledWithPromotions(ds, init);
      SettledLast(ds + Promotions(init), d);
      PromotionsLast(ds, ps, d);
      ConcatAssoc(SettledIds(ds), GroupIds(init), Settles(d));
    }
  }

  lemma PromotionsLast(ds: seq<Decision>, ps: seq<Pending>, d: Decision)
    requires ps != []
    requires d == Promotions(ps)[|ps| - 1]
    ensures ds + Promotions(ps) == ds + Promotions(ps[..|ps| - 1]) + [d]
  {
  }

  lemma GroupSingle(p: Pending)
    ensures GroupIds([p]) == [p.candidate.id] + p.retiredCandidates
  {
  }

  lemma GroupBag(a: seq<Pending>, b: seq<Pending>)
    ensures multiset(GroupIds(a + b)) == multiset(GroupIds(a)) + multiset(GroupIds(b))
  {
    GroupConcat(a, b);
  }

  lemma KeptOrBeaten(w: World, c: Candidate, ps: seq<Pending>)
    requires ps != []
    ensures var init, last := ps[..|ps| - 1], ps[|ps| - 1];
            if Against(w, c, last) then
              Kept(w, c, ps) == Kept(w, c, init) && Beaten(w, c, ps) == Beaten(w, c, init) + [last]
            else
              Kept(w, c, ps) == Kept(w, c, init) + [last] && Beaten(w, c, ps) == Beaten(w, c, init)
  {
  }

  lemma AddToEither(k: multiset<int>, b: multiset<int>, i: multiset<int>, x: multiset<int>)
    requires k + b == i
    ensures (k + x) + b == i + x && k + (b + x) == i + x
  {
  }

  /** Moving one group to the kept or the beaten side. */
  lemma BagSplit(kept: seq<Pending>, beaten: seq<Pending>, init: seq<Pending>, last: Pending)
    requires multiset(GroupIds(kept)) + multiset(GroupIds(beaten)) == multiset(GroupIds(init))
    ensures multiset(GroupIds(kept + [last])) + multiset(GroupIds(beaten)) == multiset(GroupIds(init + [last]))
    ensures multiset(GroupIds(kept)) + multiset(GroupIds(beaten + [last])) == multiset(GroupIds(init + [last]))
  {
    GroupBag(init, [last]);
    GroupBag(kept, [last]);
    GroupBag(beaten, [last]);
    AddToEither(multiset(GroupIds(kept)), multiset(GroupIds(beaten)), multiset(GroupIds(init)),
                multiset(GroupIds([last])));
  }

  lemma {:induction false} KeptAndBeaten(w: World, c: Candidate, ps: seq<Pending>)
    ensures multiset(GroupIds(Kept(w, c, ps))) + multiset(GroupIds(Beaten(w, c, ps))) == multiset(GroupIds(ps))
  {
    if ps != [] {
      var init, last := ps[..|ps| - 1], ps[|ps| - 1];
      KeptAndBeaten(w, c, init);
      KeptOrBeaten(w, c, ps);
      BagSplit(Kept(w, c, init), Beaten(w, c, init), init, last);
      SplitLast(ps);
    }
  }

  lemma DistinctIsCount(s: seq<int>)
    ensures Distinct(s) <==> forall x :: multiset(s)[x] <= 1
  {
    if Distinct(s) {
      DistinctCount(s);
    } else {
      var i, j :| 0 <= i < j < |s| && s[i] == s[j];
      TwiceIsTwo(s, i, j);
    }
  }

  lemma TwiceIsTwo(s: seq<int>, i: nat, j: nat)
    requires i < j < |s| && s[i] == s[j]
    ensures multiset(s)[s[i]] >= 2
  {
    var a, b := s[..j], s[j..];
    assert s == a + b;
    assert a[i] in multiset(a) && b[0] in multiset(b);
  }

  lemma {:induction false} DistinctCount(s: seq<int>)
    requires Distinct(s)
    ensures forall x :: multiset(s)[x] <= 1
  {
    if s != [] {
      var init, last := s[..|s| - 1], s[|s| - 1];
      DistinctCount(init);
      assert s == init + [last];
      assert last !in init;
    }
  }

  /** On distinct ids, `sorted(set(ids))` only reorders. */
  lemma SortedSetPermutes(ids: seq<int>)
    requires Distinct(ids)
    ensures multiset(SortedSet(ids)) == multiset(ids)
  {
    SortedSetIncreasing(ids);
    var r := SortedSet(ids);
    assert Distinct(r);
    DistinctIsCount(r);
    DistinctIsCount(ids);
    forall x ensures multiset(r)[x] == multiset(ids)[x] {
      assert x in multiset(r) <==> x in r;
      assert x in multiset(ids) <==> x in ids;
    }
  }

  // ---- conservation ----

  function Accounted(s: State): multiset<int> {
    multiset(GroupIds(s.pending)) + multiset(SettledIds(s.retirements))
  }

  lemma RetiredByFactConserves(s: State, d: Decision)
    requires d.Retirement?
    ensures Accounted(s.(retirements := s.retirements + [d])) == Accounted(s) + multiset{d.candidateId}
  {
  }

  lemma ReplaceLoser(kept: seq<Pending>, front: seq<Pending>, beaten: multiset<int>,
                     loser: Pending, winner: Pending, tail: seq<Pending>, id: int)
    requires multiset(GroupIds(kept)) + beaten == multiset(GroupIds(front))
    requires GroupIds([winner]) == GroupIds([loser]) + [id]
    ensures multiset(GroupIds(kept + ([winner] + tail))) + beaten
            == multiset(GroupIds(front + ([loser] + tail))) + multiset{id}
  {
    GroupBag([winner], tail);
    GroupBag(kept, [winner] + tail);
    GroupBag([loser], tail);
    GroupBag(front, [loser] + tail);
  }

  lemma LossConserves(w: World, c: Candidate, ps: seq<Pending>, k: nat)
    requires k < |ps|
    ensures multiset(GroupIds(AfterLoss(w, c, ps, k))) + multiset(GroupIds(Beaten(w, c, ps[..k])))
            == multiset(GroupIds(ps)) + multiset{c.id}
  {
    var front, loser, tail := ps[..k], ps[k], ps[k + 1..];
    assert front + ([loser] + tail) == ps;
    var winner := loser.(retiredCandidates := loser.retiredCandidates + [c.id]);
    KeptAndBeaten(w, c, front);
    WinnerGroup(loser, winner, c.id);
    ReplaceLoser(Kept(w, c, front), front, multiset(GroupIds(Beaten(w, c, front))), loser, winner, tail, c.id);
  }

  lemma WinnerGroup(loser: Pending, winner: Pending, id: int)
    requires winner == loser.(retiredCandidates := loser.retiredCandidates + [id])
    ensures GroupIds([winner]) == GroupIds([loser]) + [id]
  {
  }

  lemma WinConserves(w: World, c: Candidate, ps: seq<Pending>, added: Pending)
    requires forall x :: multiset(GroupIds(ps))[x] <= 1
    requires added.candidate == c && added.retiredCandidates == SortedSet(GroupIds(Beaten(w, c, ps)))
    ensures multiset(GroupIds(Kept(w, c, ps) + [added])) == multiset(GroupIds(ps)) + multiset{c.id}
  {
    var beaten := GroupIds(Beaten(w, c, ps));
    KeptAndBeaten(w, c, ps);
    forall x ensures multiset(beaten)[x] <= 1 {
      assert multiset(GroupIds(ps))[x] == multiset(GroupIds(Kept(w, c, ps)))[x] + multiset(beaten)[x];
    }
    DistinctIsCount(beaten);
    SortedSetPermutes(beaten);
    GroupConcat(Kept(w, c, ps), [added]);
    GroupSingle(added);
  }

  lemma WithSettled(after: multiset<int>, dropped: multiset<int>, before: multiset<int>, settled: multiset<int>,
                    id: int)
    requires after + dropped == before + multiset{id}
    ensures (after + settled) + dropped == (before + settled) + multiset{id}
  {
    forall x ensures ((after + settled) + dropped)[x] == ((before + settled) + multiset{id})[x] {
      assert (after + dropped)[x] == (before + multiset{id})[x];
    }
  }

  lemma ConsiderConserves(w: World, s: State, c: Candidate)
    requires forall x :: Accounted(s)[x] <= 1
    ensures Accounted(Consider(w, s, c).state) + multiset(GroupIds(Consider(w, s, c).dropped))
            == Accounted(s) + multiset{c.id}
  {
    var contradicted := Contradicted(w, c, w.neighbors(c));
    var ps, k := s.pending, LossIndex(w, c, s.pending);
    if Blocking(c, contradicted) != [] {
      RetiredByFactConserves(s, Retirement(c.id, Winner(Blocking(c, contradicted)).factId));
    } else {
      var bag, settled := multiset(GroupIds(ps)), multiset(SettledIds(s.retirements));
      ConsiderCases(w, s, c);
      if k < |ps| {
        LossConserves(w, c, ps, k);
        WithSettled(multiset(GroupIds(AfterLoss(w, c, ps, k))), multiset(GroupIds(Beaten(w, c, ps[..k]))),
                    bag, settled, c.id);
      } else {
        forall x ensures bag[x] <= 1 {
          assert Accounted(s)[x] <= 1;
        }
        var added := Pending(c, FactIds(contradicted), SortedSet(GroupIds(Beaten(w, c, ps))));
        WinConserves(w, c, ps, added);
        WithSettled(multiset(GroupIds(Kept(w, c, ps) + [added])), multiset{}, bag, settled, c.id);
      }
    }
  }

  lemma FlatLast(parts: seq<seq<Pending>>, part: seq<Pending>)
    ensures Flat(parts + [part]) == Flat(parts) + part
  {
  }

  lemma DroppedPart(w: World, before: seq<Candidate>, c: Candidate, i: nat)
    requires i <= |before|
    ensures DroppedParts(w, before + [c])[i] ==
            if i < |before| then DroppedParts(w, before)[i] else Consider(w, Resolve(w, before), c).dropped
  {
    assert (before + [c])[..i] == before[..i];
    assert before[..|before|] == before;
  }

  lemma DroppedPartsLast(w: World, before: seq<Candidate>, c: Candidate)
    ensures DroppedParts(w, before + [c])
            == DroppedParts(w, before) + [Consider(w, Resolve(w, before), c).dropped]
  {
    var part := Consider(w, Resolve(w, before), c).dropped;
    forall i | 0 <= i <= |before|
      ensures DroppedParts(w, before + [c])[i] == (DroppedParts(w, before) + [part])[i]
    {
      DroppedPart(w, before, c, i);
    }
  }

  lemma DroppedLast(w: World, before: seq<Candidate>, c: Candidate)
    ensures Dropped(w, before + [c]) == Dropped(w, before) + Consider(w, Resolve(w, before), c).dropped
  {
    DroppedPartsLast(w, before, c);
    FlatLast(DroppedParts(w, before), Consider(w, Resolve(w, before), c).dropped);
  }

  /** What one candidate adds, as bags: `acc` and `drop` before, `acc'` and `part` after. */
  lemma BagStep(acc: multiset<int>, drop: multiset<int>, acc': multiset<int>, part: multiset<int>,
                ids: multiset<int>, id: int)
    requires acc + drop == ids && acc' + part == acc + multiset{id}
    ensures acc' + (drop + part) == ids + multiset{id}
  {
    forall x ensures (acc' + (drop + part))[x] == (ids + multiset{id})[x] {
      assert (acc' + part)[x] == (acc + multiset{id})[x];
    }
  }

  lemma DroppedBag(w: World, before: seq<Candidate>, c: Candidate)
    ensures multiset(GroupIds(Dropped(w, before + [c])))
            == multiset(GroupIds(Dropped(w, before))) + multiset(GroupIds(Consider(w, Resolve(w, before), c).dropped))
  {
    DroppedLast(w, before, c);
    GroupBag(Dropped(w, before), Consider(w, Resolve(w, before), c).dropped);
  }

  lemma ConserveStep(w: World, before: seq<Candidate>, c: Candidate)
    requires Accounted(Resolve(w, before)) + multiset(GroupIds(Dropped(w, before))) == multiset(Ids(before))
    requires Distinct(Ids(before))
    ensures Accounted(Resolve(w, before + [c])) + multiset(GroupIds(Dropped(w, before + [c])))
            == multiset(Ids(before)) + multiset{c.id}
  {
    var s := Resolve(w, before);
    DistinctIsCount(Ids(before));
    forall x ensures Accounted(s)[x] <= 1 {
      assert multiset(Ids(before))[x] <= 1;
    }
    ConsiderConserves(w, s, c);
    DroppedBag(w, before, c);
    ResolveLast(w, before, c);
    BagStep(Accounted(s), multiset(GroupIds(Dropped(w, before))), Accounted(Consider(w, s, c).state),
            multiset(GroupIds(Consider(w, s, c).dropped)), multiset(Ids(before)), c.id);
  }

  lemma {:induction false} ResolveConserves(w: World, selected: seq<Candidate>)
    requires Distinct(Ids(selected))
    ensures Accounted(Resolve(w, selected)) + multiset(GroupIds(Dropped(w, selected))) == multiset(Ids(selected))
  {
    if selected != [] {
      var init, c := selected[..|selected| - 1], selected[|selected| - 1];
      assert init + [c] == selected;
      assert Ids(selected) == Ids(init) + [c.id];
      assert Distinct(Ids(init)) by {
        assert forall i :: 0 <= i < |init| ==> Ids(init)[i] == Ids(selected)[i];
      }
      ResolveConserves(w, init);
      ConserveStep(w, init, c);
    }
  }

  lemma SettledOfDecide(w: World, selected: seq<Candidate>)
    ensures multiset(SettledIds(Decide(w, selected))) == Accounted(Resolve(w, selected))
  {
    SettledWithPromotions(Resolve(w, selected).retirements, Resolve(w, selected).pending);
  }

  /** With distinct ids, every selected candidate is counted exactly once over the
      promotions, what they retire, the fact retirements, and the discarded groups. */
  lemma {:induction false} EverySelectedOnce(w: World, selected: seq<Candidate>, id: int)
    requires Distinct(Ids(selected))
    ensures multiset(SettledIds(Decide(w, selected))) + multiset(GroupIds(Dropped(w, selected)))
            == multiset(Ids(selected))
    ensures id in Ids(selected) ==>
              multiset(SettledIds(Decide(w, selected)))[id] + multiset(GroupIds(Dropped(w, selected)))[id] == 1
    ensures id !in Ids(selected) ==> id !in SettledIds(Decide(w, selected))
  {
    ResolveConserves(w, selected);
    SettledOfDecide(w, selected);
    DistinctIsCount(Ids(selected));
    var settled, dropped := SettledIds(Decide(w, selected)), GroupIds(Dropped(w, selected));
    assert multiset(Ids(selected))[id] == multiset(settled)[id] + multiset(dropped)[id];
    assert id in Ids(selected) <==> id in multiset(Ids(selected));
    assert id in settled <==> id in multiset(settled);
  }

  // ---- who is left undecided ----

  /** In the pass of `selected[i]`: `p` was pending, was contradicted by a strictly more
      confident candidate, and that candidate then lost to a later pending promotion. */
  ghost predicate DisplacedInVain(w: World, selected: seq<Candidate>, i: nat, p: Pending)
    requires i < |selected|
  {
    var c, ps := selected[i], Resolve(w, selected[..i]).pending;
    && Blocking(c, Contradicted(w, c, w.neighbors(c))) == []
    && exists v, k :: 0 <= v < k < |ps| && ps[v] == p
         && Against(w, c, p) && c.confidence > p.candidate.confidence
         && k == LossIndex(w, c, ps) && Against(w, c, ps[k]) && c.confidence <= ps[k].candidate.confidence
  }

  lemma DroppedInPass(w: World, selected: seq<Candidate>, i: nat, p: Pending)
    requires i < |selected|
    ensures p in DroppedParts(w, selected)[i] <==> DisplacedInVain(w, selected, i, p)
  {
  }

  lemma {:induction false} FlatMember(parts: seq<seq<Pending>>, p: Pending)
    ensures p in Flat(parts) <==> exists i :: 0 <= i < |parts| && p in parts[i]
  {
    if parts != [] {
      FlatMember(parts[..|parts| - 1], p);
    }
  }

  lemma {:induction false} MemberOfGroup(ps: seq<Pending>, p: Pending, id: int)
    requires p in ps && (id == p.candidate.id || id in p.retiredCandidates)
    ensures id in GroupIds(ps)
  {
    var init, last := ps[..|ps| - 1], ps[|ps| - 1];
    assert ps == init + [last];
    if p != last {
      MemberOfGroup(init, p, id);
    }
  }

  /** A selected candidate is left out of every decision exactly when it, or the pending
      promotion that had absorbed it, was displaced in vain. */
  lemma {:induction false} UndecidedIffDisplaced(w: World, selected: seq<Candidate>, id: int)
    requires Distinct(Ids(selected)) && id in Ids(selected)
    ensures id !in SettledIds(Decide(w, selected)) <==>
            exists i, p :: 0 <= i < |selected| && DisplacedInVain(w, selected, i, p)
                           && (id == p.candidate.id || id in p.retiredCandidates)
  {
    EverySelectedOnce(w, selected, id);
    var settled, dropped := SettledIds(Decide(w, selected)), GroupIds(Dropped(w, selected));
    assert id in settled <==> id in multiset(settled);
    assert id in dropped <==> id in multiset(dropped);
    if id in dropped {
      GroupIdsMember(Dropped(w, selected), id);
      var p :| p in Dropped(w, selected) && (id == p.candidate.id || id in p.retiredCandidates);
      FlatMember(DroppedParts(w, selected), p);
      var i :| 0 <= i < |selected| && p in DroppedParts(w, selected)[i];
      DroppedInPass(w, selected, i, p);
    }
    if i, p :| 0 <= i < |selected| && DisplacedInVain(w, selected, i, p)
               && (id == p.candidate.id || id in p.retiredCandidates)
    {
      DroppedInPass(w, selected, i, p);
      FlatMember(DroppedParts(w, selected), p);
      MemberOfGroup(Dropped(w, selected), p, id);
    }
  }

  /** A pass with no contradicted fact, by its loss position. */
  lemma PassByLoss(w: World, s: State, c: Candidate, k: nat)
    requires w.neighbors(c) == [] && k == LossIndex(w, c, s.pending)
    ensures Consider(w, s, c).state.retirements == s.retirements
    ensures Consider(w, s, c).state.pending ==
            if k < |s.pending| then AfterLoss(w, c, s.pending, k)
            else Kept(w, c, s.pending) + [Pending(c, [], SortedSet(GroupIds(Beaten(w, c, s.pending))))]
  {
  }

  lemma ResolveLast(w: World, before: seq<Candidate>, c: Candidate)
    ensures Resolve(w, before + [c]) == Consider(w, Resolve(w, before), c).state
  {
  }

  lemma FirstTwoPend(w: World, a: Candidate, b: Candidate)
    requires w.neighbors(a) == [] && w.neighbors(b) == [] && !HighConfidence(w.judgePending(b, a))
    ensures Resolve(w, [a, b]) == State([Pending(a, [], []), Pending(b, [], [])], [])
  {
    ResolveLast(w, [], a);
    PassByLoss(w, State([], []), a, 0);
    var pa := Pending(a, [], []);
    assert Resolve(w, [a]) == State([pa], []);
    ResolveLast(w, [a], b);
    PassByLoss(w, State([pa], []), b, 1);
    assert [pa][..0] == [];
    assert [a] + [b] == [a, b];
  }

  lemma BeatsThenLoses(w: World, pa: Pending, pb: Pending, c: Candidate)
    requires w.neighbors(c) == [] && Against(w, c, pa) && Against(w, c, pb)
    requires pa.candidate.confidence < c.confidence <= pb.candidate.confidence
    ensures Consider(w, State([pa, pb], []), c).state
            == State([pb.(retiredCandidates := pb.retiredCandidates + [c.id])], [])
  {
    var ps := [pa, pb];
    assert LosesTo(w, c, ps[1]) && !LosesTo(w, c, ps[0]);
    PassByLoss(w, State(ps, []), c, 1);
    assert ps[..1] == [pa] && ps[2..] == [] && [pa][..0] == [];
    assert Kept(w, c, [pa]) == [];
  }

  /** It does happen: `c` beats `a`, then loses to `b`, and `a` is in no decision. */
  lemma UndecidedHappens(w: World, a: Candidate, b: Candidate, c: Candidate)
    requires w.neighbors(a) == [] && w.neighbors(b) == [] && w.neighbors(c) == []
    requires !HighConfidence(w.judgePending(b, a))
    requires HighConfidence(w.judgePending(c, a)) && HighConfidence(w.judgePending(c, b))
    requires a.confidence < c.confidence <= b.confidence
    ensures Decide(w, [a, b, c]) == [Promotion(b.id, [], [c.id])]
  {
    FirstTwoPend(w, a, b);
    ResolveLast(w, [a, b], c);
    assert [a, b] + [c] == [a, b, c];
    BeatsThenLoses(w, Pending(a, [], []), Pending(b, [], []), c);
    var s := State([Pending(b, [], [c.id])], []);
    assert [] + [c.id] == [c.id];
    assert Resolve(w, [a, b, c]) == s;
    OnePromotion(s);
  }

  lemma OnePromotion(s: State)
    requires |s.pending| == 1 && s.retirements == []
    ensures var p := s.pending[0];
            s.retirements + Promotions(s.pending) == [Promotion(p.candidate.id, p.retiredFacts, p.retiredCandidates)]
  {
  }

  // ---- what the pass costs ----

  lemma PendingGrowsByOne(w: World, s: State, c: Candidate)
    ensures |Consider(w, s, c).state.pending| <= |s.pending| + 1
  {
    ConsiderCases(w, s, c);
    KeptShorter(w, c, s.pending);
    KeptShorter(w, c, s.pending[..LossIndex(w, c, s.pending)]);
  }

  lemma {:induction false} KeptShorter(w: World, c: Candidate, ps: seq<Pending>)
    ensures |Kept(w, c, ps)| <= |ps|
  {
    if ps != [] {
      KeptShorter(w, c, ps[..|ps| - 1]);
    }
  }

  lemma OneMoreCandidate(n: nat, k: nat, calls: nat, last: nat)
    requires n >= 1 && 2 * calls <= 2 * ((n - 1) * k) + (n - 1) * (n - 2) && last <= k + (n - 1)
    ensures 2 * (calls + last) <= 2 * (n * k) + n * (n - 1)
  {
  }

  /** With `n` candidates and at most `k` neighbours each, the judge is called at most
      `n * k` times about facts and once per pair of candidates. */
  lemma {:induction false} CallsBounded(w: World, selected: seq<Candidate>, k: nat)
    requires forall c :: c in selected ==> |w.neighbors(c)| <= k
    ensures |Resolve(w, selected).pending| <= |selected|
    ensures 2 * Calls(w, selected) <= 2 * (|selected| * k) + |selected| * (|selected| - 1)
  {
    if selected != [] {
      var n := |selected|;
      var init, c := selected[..n - 1], selected[n - 1];
      CallsBounded(w, init, k);
      PendingGrowsByOne(w, Resolve(w, init), c);
      assert c in selected;
      OneMoreCandidate(n, k, Calls(w, init), CallsFor(w, Resolve(w, init), c));
    }
  }

  /** The budget of the live baseline. */
  function EstimateProviderCalls(rowCount: nat, topN: nat, neighborK: nat): int {
    rowCount * (1 + topN * neighborK + topN * (topN - 1) / 2 + 3)
  }

  lemma BudgetGrows(n: nat, m: nat, k: nat)
    requires n <= m
    ensures n * k <= m * k && n * (n - 1) <= m * (m - 1)
  {
  }

  /** One row's charge covers the pass and the four calls beside it. */
  lemma {:induction false} CallsWithinEstimate(w: World, selected: seq<Candidate>, topN: nat, neighborK: nat)
    requires forall c :: c in selected ==> |w.neighbors(c)| <= neighborK
    requires |selected| <= topN
    ensures Calls(w, selected) + 4 <= EstimateProviderCalls(1, topN, neighborK)
  {
    CallsBounded(w, selected, neighborK);
    BudgetGrows(|selected|, topN, neighborK);
    var facts, pairs := topN * neighborK, topN * (topN - 1);
    assert 2 * Calls(w, selected) <= 2 * facts + pairs;
  }
}
