/** The contradiction-resolution loop of the Deep phase.

    `Decide` says declaratively what one pass over the selected candidates decides; the
    method `RunDecisions` is the source's nested loop and is proved to compute it. */
module DeepPhase {

  datatype Candidate = Candidate(id: int, confidence: real)
  datatype Neighbor = Neighbor(factId: int, confidence: real, similarity: real)
  datatype Judgment = Judgment(contradicts: bool, confidence: real)

  const CONTRADICTION_CONFIDENCE_THRESHOLD: real := 0.5

  predicate HighConfidence(j: Judgment) {
    j.contradicts && j.confidence >= CONTRADICTION_CONFIDENCE_THRESHOLD
  }

  /** The calls into code outside the model: the neighbour search and the judge. */
  datatype World = World(
    neighbors: Candidate -> seq<Neighbor>,
    judgeFact: (Candidate, Neighbor) -> Judgment,
    judgePending: (Candidate, Candidate) -> Judgment)

  datatype Pending = Pending(candidate: Candidate, retiredFacts: seq<int>, retiredCandidates: seq<int>)

  datatype Decision =
    | Promotion(candidateId: int, retiredFacts: seq<int>, retiredCandidates: seq<int>)
    | Retirement(candidateId: int, byFact: int)

  // ---- one candidate against long-term memory ----

  function Contradicted(w: World, c: Candidate, ns: seq<Neighbor>): (r: seq<Neighbor>)
    ensures forall n :: n in r <==> n in ns && w.judgeFact(c, n).contradicts && w.judgeFact(c, n).confidence >= 0.5
  {
    if ns == [] then []
    else
      var rest := Contradicted(w, c, ns[..|ns| - 1]);
      if HighConfidence(w.judgeFact(c, ns[|ns| - 1])) then rest + [ns[|ns| - 1]] else rest
  }

  function Blocking(c: Candidate, ns: seq<Neighbor>): (r: seq<Neighbor>)
    ensures forall n :: n in r <==> n in ns && n.confidence >= c.confidence
  {
    if ns == [] then []
    else
      var rest := Blocking(c, ns[..|ns| - 1]);
      if ns[|ns| - 1].confidence >= c.confidence then rest + [ns[|ns| - 1]] else rest
  }

  predicate Stronger(a: Neighbor, b: Neighbor) {
    a.confidence > b.confidence || (a.confidence == b.confidence && a.similarity > b.similarity)
  }

  /** The first neighbour that none is stronger than. */
  function Winner(ns: seq<Neighbor>): (r: Neighbor)
    requires ns != []
    ensures r in ns && forall n :: n in ns ==> !Stronger(n, r)
  {
    var last := ns[|ns| - 1];
    if |ns| == 1 then last
    else
      var best := Winner(ns[..|ns| - 1]);
      assert ns == ns[..|ns| - 1] + [last];
      if Stronger(last, best) then last else best
  }

  function FactIds(ns: seq<Neighbor>): (r: seq<int>)
    ensures |r| == |ns| && forall i :: 0 <= i < |r| ==> r[i] == ns[i].factId
  {
    seq(|ns|, i requires 0 <= i < |ns| => ns[i].factId)
  }

  // ---- one candidate against the pending promotions ----

  predicate Against(w: World, c: Candidate, p: Pending) {
    HighConfidence(w.judgePending(c, p.candidate))
  }

  /** The pending promotion `c` loses to: contradicted, and not less confident. */
  predicate LosesTo(w: World, c: Candidate, p: Pending) {
    Against(w, c, p) && !(c.confidence > p.candidate.confidence)
  }

  /** The first pending promotion that `c` loses to, or the length. */
  function LossIndex(w: World, c: Candidate, ps: seq<Pending>): (k: nat)
    ensures k <= |ps|
    ensures k < |ps| ==> LosesTo(w, c, ps[k]) && c.confidence <= ps[k].candidate.confidence
    ensures forall i :: 0 <= i < k ==> !LosesTo(w, c, ps[i])
  {
    if ps == [] then 0
    else if LosesTo(w, c, ps[0]) then 0
    else 1 + LossIndex(w, c, ps[1..])
  }

  function Kept(w: World, c: Candidate, ps: seq<Pending>): (r: seq<Pending>)
    ensures forall p :: p in r <==> p in ps && !Against(w, c, p)
  {
    if ps == [] then []
    else
      var rest := Kept(w, c, ps[..|ps| - 1]);
      if Against(w, c, ps[|ps| - 1]) then rest else rest + [ps[|ps| - 1]]
  }

  function Beaten(w: World, c: Candidate, ps: seq<Pending>): (r: seq<Pending>)
    ensures forall p :: p in r <==> p in ps && Against(w, c, p)
  {
    if ps == [] then []
    else
      var rest := Beaten(w, c, ps[..|ps| - 1]);
      if Against(w, c, ps[|ps| - 1]) then rest + [ps[|ps| - 1]] else rest
  }

  /** A pending promotion together with everything retired under it. */
  function GroupIds(ps: seq<Pending>): seq<int> {
    if ps == [] then []
    else
      var p := ps[|ps| - 1];
      GroupIds(ps[..|ps| - 1]) + ([p.candidate.id] + p.retiredCandidates)
  }

  ghost predicate Increasing(s: seq<int>) {
    forall i, j :: 0 <= i < j < |s| ==> s[i] < s[j]
  }

  /** Insertion into a sorted list that holds no value twice. */
  function InsertId(x: int, s: seq<int>): (r: seq<int>)
    ensures forall y :: y in r <==> y == x || y in s
  {
    if s == [] then [x]
    else if x == s[0] then s
    else if x < s[0] then [x] + s
    else [s[0]] + InsertId(x, s[1..])
  }

  lemma {:induction false} InsertIncreasing(x: int, s: seq<int>)
    requires Increasing(s)
    ensures Increasing(InsertId(x, s))
  {
    if s != [] && x > s[0] {
      InsertIncreasing(x, s[1..]);
      var r := InsertId(x, s[1..]);
      forall j | 0 <= j < |r| ensures s[0] < r[j] {
        assert r[j] in r;
      }
    }
  }

  /** `sorted(set(ids))`. */
  function SortedSet(ids: seq<int>): (r: seq<int>)
    ensures forall x :: x in r <==> x in ids
  {
    if ids == [] then []
    else
      assert ids == ids[..|ids| - 1] + [ids[|ids| - 1]];
      InsertId(ids[|ids| - 1], SortedSet(ids[..|ids| - 1]))
  }

  lemma {:induction false} SortedSetIncreasing(ids: seq<int>)
    ensures Increasing(SortedSet(ids))
  {
    if ids != [] {
      SortedSetIncreasing(ids[..|ids| - 1]);
      InsertIncreasing(ids[|ids| - 1], SortedSet(ids[..|ids| - 1]));
    }
  }

  // ---- the whole pass ----

  datatype State = State(pending: seq<Pending>, retirements: seq<Decision>)

  /** `dropped` is bookkeeping of the model only: the groups that a losing pass discards. */
  datatype Pass = Pass(state: State, dropped: seq<Pending>)

  function Consider(w: World, s: State, c: Candidate): Pass {
    var contradicted := Contradicted(w, c, w.neighbors(c));
    var blocking := Blocking(c, contradicted);
    if blocking != [] then
      Pass(s.(retirements := s.retirements + [Retirement(c.id, Winner(blocking).factId)]), [])
    else
      var ps := s.pending;
      var k := LossIndex(w, c, ps);
      if k < |ps| then
        var winner := ps[k].(retiredCandidates := ps[k].retiredCandidates + [c.id]);
        Pass(s.(pending := Kept(w, c, ps[..k]) + [winner] + ps[k + 1..]), Beaten(w, c, ps[..k]))
      else
        var added := Pending(c, FactIds(contradicted), SortedSet(GroupIds(Beaten(w, c, ps))));
        Pass(s.(pending := Kept(w, c, ps) + [added]), [])
  }

  function Resolve(w: World, selected: seq<Candidate>): State {
    if selected == [] then State([], [])
    else Consider(w, Resolve(w, selected[..|selected| - 1]), selected[|selected| - 1]).state
  }

  function Promotions(ps: seq<Pending>): (r: seq<Decision>)
    ensures |r| == |ps|
    ensures forall i :: 0 <= i < |r| ==>
              r[i] == Promotion(ps[i].candidate.id, ps[i].retiredFacts, ps[i].retiredCandidates)
  {
    seq(|ps|, i requires 0 <= i < |ps| =>
      Promotion(ps[i].candidate.id, ps[i].retiredFacts, ps[i].retiredCandidates))
  }

  function Decide(w: World, selected: seq<Candidate>): seq<Decision> {
    Resolve(w, selected).retirements + Promotions(Resolve(w, selected).pending)
  }

  /** Judge calls one candidate costs. */
  function CallsFor(w: World, s: State, c: Candidate): nat {
    |w.neighbors(c)| +
    if Blocking(c, Contradicted(w, c, w.neighbors(c))) != [] then 0
    else
      var k := LossIndex(w, c, s.pending);
      if k < |s.pending| then k + 1 else k
  }

  function Calls(w: World, selected: seq<Candidate>): nat {
    if selected == [] then 0
    else
      var before := selected[..|selected| - 1];
      Calls(w, before) + CallsFor(w, Resolve(w, before), selected[|selected| - 1])
  }

  // ---- the source's loops ----

  method JudgeNeighbors(w: World, c: Candidate) returns (contradicted: seq<Neighbor>, calls: nat)
    ensures contradicted == Contradicted(w, c, w.neighbors(c))
    ensures calls == |w.neighbors(c)|
  {
    var ns := w.neighbors(c);
    contradicted, calls := [], 0;
    for i := 0 to |ns|
      invariant contradicted == Contradicted(w, c, ns[..i]) && calls == i
    {
      assert ns[..i + 1][..i] == ns[..i];
      calls := calls + 1;
      if HighConfidence(w.judgeFact(c, ns[i])) {
        contradicted := contradicted + [ns[i]];
      }
    }
    assert ns[..|ns|] == ns;
  }

  method BlockingWinner(c: Candidate, contradicted: seq<Neighbor>) returns (found: bool, winner: Neighbor)
    ensures found == (Blocking(c, contradicted) != [])
    ensures found ==> winner == Winner(Blocking(c, contradicted))
  {
    found, winner := false, Neighbor(0, 0.0, 0.0);
    for i := 0 to |contradicted|
      invariant found == (Blocking(c, contradicted[..i]) != [])
      invariant found ==> winner == Winner(Blocking(c, contradicted[..i]))
    {
      assert contradicted[..i + 1][..i] == contradicted[..i];
      var n := contradicted[i];
      if n.confidence >= c.confidence {
        ghost var grown := Blocking(c, contradicted[..i]) + [n];
        assert grown[..|grown| - 1] == Blocking(c, contradicted[..i]);
        if !found || Stronger(n, winner) {
          winner := n;
        }
        found := true;
      }
    }
    assert contradicted[..|contradicted|] == contradicted;
  }

  /** One candidate that no fact blocks, against the pending list. */
  method Confront(w: World, c: Candidate, ps: seq<Pending>, factIds: seq<int>)
    returns (pending: seq<Pending>, calls: nat)
    ensures var k := LossIndex(w, c, ps);
            if k < |ps| then
              && calls == k + 1
              && pending == Kept(w, c, ps[..k])
                 + [ps[k].(retiredCandidates := ps[k].retiredCandidates + [c.id])] + ps[k + 1..]
            else
              && calls == k
              && pending == Kept(w, c, ps) + [Pending(c, factIds, SortedSet(GroupIds(Beaten(w, c, ps))))]
  {
    var surviving: seq<Pending>, retired: seq<int> := [], [];
    calls := 0;
    for index := 0 to |ps|
      invariant surviving == Kept(w, c, ps[..index])
      invariant retired == GroupIds(Beaten(w, c, ps[..index]))
      invariant calls == index <= LossIndex(w, c, ps)
    {
      assert ps[..index + 1][..index] == ps[..index];
      var p := ps[index];
      calls := calls + 1;
      if !Against(w, c, p) {
        surviving := surviving + [p];
      } else if c.confidence > p.candidate.confidence {
        ghost var beaten := Beaten(w, c, ps[..index]);
        assert (beaten + [p])[..|beaten|] == beaten;
        retired := retired + [p.candidate.id];
        retired := retired + p.retiredCandidates;
      } else {
        assert LossIndex(w, c, ps) == index;
        surviving := surviving + [Pending(p.candidate, p.retiredFacts, p.retiredCandidates + [c.id])];
        surviving := surviving + ps[index + 1..];
        return surviving, calls;
      }
    }
    assert ps[..|ps|] == ps;
    pending := surviving + [Pending(c, factIds, SortedSet(retired))];
  }

  /** The body of the loop over the selected candidates. */
  method ConsiderCandidate(w: World, pending: seq<Pending>, decisions: seq<Decision>, c: Candidate)
    returns (pending': seq<Pending>, decisions': seq<Decision>, calls: nat)
    ensures State(pending', decisions') == Consider(w, State(pending, decisions), c).state
    ensures calls == CallsFor(w, State(pending, decisions), c)
  {
    var contradicted, factCalls := JudgeNeighbors(w, c);
    var blocked, winner := BlockingWinner(c, contradicted);
    if blocked {
      return pending, decisions + [Retirement(c.id, winner.factId)], factCalls;
    }
    var pairCalls;
    pending', pairCalls := Confront(w, c, pending, FactIds(contradicted));
    decisions', calls := decisions, factCalls + pairCalls;
  }

  method RunDecisions(w: World, selected: seq<Candidate>) returns (decisions: seq<Decision>, calls: nat)
    ensures decisions == Decide(w, selected)
    ensures calls == Calls(w, selected)
  {
    decisions, calls := [], 0;
    var pending: seq<Pending> := [];
    for i := 0 to |selected|
      invariant State(pending, decisions) == Resolve(w, selected[..i])
      invariant calls == Calls(w, selected[..i])
    {
      assert selected[..i + 1][..i] == selected[..i];
      var used;
      pending, decisions, used := ConsiderCandidate(w, pending, decisions, selected[i]);
      calls := calls + used;
    }
    assert selected[..|selected|] == selected;
    decisions := AppendPromotions(decisions, pending);
  }

  method AppendPromotions(decisions: seq<Decision>, pending: seq<Pending>) returns (r: seq<Decision>)
    ensures r == decisions + Promotions(pending)
  {
    r := decisions;
    for i := 0 to |pending|
      invariant r == decisions + Promotions(pending)[..i]
    {
      var p := pending[i];
      r := r + [Promotion(p.candidate.id, p.retiredFacts, p.retiredCandidates)];
    }
  }

  /** `run_deep_phase` between selection and commit: with judging deferred and no judge
      supplied, every selected candidate is promoted as it stands. */
  method RunDeepPhase(w: World, selected: seq<Candidate>, judgeSupplied: bool, deferContradiction: bool)
    returns (decisions: seq<Decision>, calls: nat)
    ensures !judgeSupplied && deferContradiction ==>
              calls == 0 && decisions == seq(|selected|, i requires 0 <= i < |selected| =>
                              Promotion(selected[i].id, [], []))
    ensures judgeSupplied || !deferContradiction ==>
              decisions == Decide(w, selected) && calls == Calls(w, selected)
  {
    if !judgeSupplied && deferContradiction {
      decisions := seq(|selected|, i requires 0 <= i < |selected| => Promotion(selected[i].id, [], []));
      calls := 0;
    } else {
      decisions, calls := RunDecisions(w, selected);
    }
  }
}
