/** Choosing benchmark instances: the first few, or a weighted round robin over question
    types.  A row whose question type is not a string counts as "<unknown>". */
module StratifiedSelection {
  import opened Common

  datatype Row = Row(id: int, questionType: Option<string>)

  datatype Group = Group(name: string, rows: seq<Row>)

  datatype Selection = First | Stratified | Unsupported

  datatype Result = Selected(rows: seq<Row>) | WeightsNeedStratified | WeightTooSmall | UnsupportedSelection

  type Weights = map<string, int>

  function GroupName(row: Row): string {
    if row.questionType.Some? then row.questionType.value else "<unknown>"
  }

  /** The rows of one group, in their own order. */
  function Of(rows: seq<Row>, name: string): (r: seq<Row>)
    ensures forall row :: row in r <==>
              row in rows && (row.questionType == Some(name) || (row.questionType == None && name == "<unknown>"))
  {
    if rows == [] then []
    else (if GroupName(rows[0]) == name then [rows[0]] else []) + Of(rows[1..], name)
  }

  function WeightOf(weights: Option<Weights>, name: string): int {
    if weights.Some? && name in weights.value then weights.value[name] else 1
  }

  predicate ValidWeights(weights: Option<Weights>) {
    weights.Some? ==> forall name | name in weights.value :: weights.value[name] >= 1
  }

  // ---- the round robin, pass by pass ----

  /** How far a group has been read after so many passes. */
  function Reach(g: Group, weight: int, passes: nat): (r: nat)
    requires weight >= 1
    ensures r <= |g.rows|
  {
    if passes == 0 then 0 else MinInt(|g.rows|, Reach(g, weight, passes - 1) + weight)
  }

  lemma {:induction false} ReachIs(g: Group, weight: int, passes: nat)
    requires weight >= 1
    ensures Reach(g, weight, passes) == MinInt(|g.rows|, passes * weight)
  {
    if passes > 0 {
      ReachIs(g, weight, passes - 1);
      assert passes * weight == (passes - 1) * weight + weight;
    }
  }

  /** What one group gives in one pass: the next `weight` rows it has. */
  function Share(g: Group, weight: int, pass: nat): seq<Row>
    requires weight >= 1
  {
    g.rows[Reach(g, weight, pass)..Reach(g, weight, pass + 1)]
  }

  function Pass(groups: seq<Group>, weights: Option<Weights>, pass: nat): seq<Row>
    requires ValidWeights(weights)
  {
    if groups == [] then []
    else
      var last := groups[|groups| - 1];
      Pass(groups[..|groups| - 1], weights, pass) + Share(last, WeightOf(weights, last.name), pass)
  }

  function Passes(groups: seq<Group>, weights: Option<Weights>, passes: nat): seq<Row>
    requires ValidWeights(weights)
  {
    if passes == 0 then [] else Passes(groups, weights, passes - 1) + Pass(groups, weights, passes - 1)
  }

  // ---- grouping ----

  predicate DistinctNames(groups: seq<Group>) {
    forall i, j :: 0 <= i < j < |groups| ==> groups[i].name != groups[j].name
  }

  function Names(groups: seq<Group>): seq<string> {
    seq(|groups|, i requires 0 <= i < |groups| => groups[i].name)
  }

  /** The group names in the order of their first rows. */
  function FirstSeen(rows: seq<Row>): seq<string> {
    if rows == [] then []
    else
      var names := FirstSeen(rows[..|rows| - 1]);
      var name := GroupName(rows[|rows| - 1]);
      if name in names then names else names + [name]
  }

  /** A group comes before another exactly because one of its rows does. */
  lemma {:induction false} FirstSeenInOrder(rows: seq<Row>, i: nat, j: nat) returns (p: nat)
    requires i < j < |FirstSeen(rows)|
    ensures p < |rows| && GroupName(rows[p]) == FirstSeen(rows)[i]
    ensures forall q :: 0 <= q <= p ==> GroupName(rows[q]) != FirstSeen(rows)[j]
  {
    var last := |rows| - 1;
    var init := rows[..last];
    if j < |FirstSeen(init)| {
      p := FirstSeenInOrder(init, i, j);
    } else {
      p := FirstRowOf(init, FirstSeen(rows)[i]);
      forall q | 0 <= q <= p ensures GroupName(rows[q]) != FirstSeen(rows)[j] {
        assert init[q] == rows[q] && init[q] in init;
        SeenRow(init, init[q]);
      }
    }
  }

  lemma {:induction false} FirstRowOf(rows: seq<Row>, name: string) returns (p: nat)
    requires name in FirstSeen(rows)
    ensures p < |rows| && GroupName(rows[p]) == name
  {
    var last := |rows| - 1;
    if GroupName(rows[last]) == name {
      p := last;
    } else {
      p := FirstRowOf(rows[..last], name);
    }
  }

  /** The groups of `_select_instances`, by their definition. */
  function GroupsOf(rows: seq<Row>): seq<Group> {
    var names := FirstSeen(rows);
    seq(|names|, i requires 0 <= i < |names| => Group(names[i], Of(rows, names[i])))
  }

  /** One group per name, in order of appearance, each holding its rows in order. */
  ghost predicate Groups(groups: seq<Group>, rows: seq<Row>) {
    && DistinctNames(groups)
    && Names(groups) == FirstSeen(rows)
    && (forall i :: 0 <= i < |groups| ==> groups[i].rows == Of(rows, groups[i].name))
  }

  lemma {:induction false} OfLast(rows: seq<Row>, row: Row, name: string)
    ensures Of(rows + [row], name) == Of(rows, name) + if GroupName(row) == name then [row] else []
  {
    var last := if GroupName(row) == name then [row] else [];
    if rows == [] {
      assert rows + [row] == [row] && [row][1..] == [];
    } else {
      ConcatDrop(rows, [row], 1);
      OfLast(rows[1..], row, name);
      ConcatAssoc(if GroupName(rows[0]) == name then [rows[0]] else [], Of(rows[1..], name), last);
    }
  }

  lemma {:induction false} OfMissing(rows: seq<Row>, name: string)
    requires forall r :: r in rows ==> GroupName(r) != name
    ensures Of(rows, name) == []
  {
    if rows != [] {
      OfMissing(rows[1..], name);
    }
  }

  lemma SeenAgain(rows: seq<Row>, row: Row)
    ensures FirstSeen(rows + [row]) ==
            if GroupName(row) in FirstSeen(rows) then FirstSeen(rows) else FirstSeen(rows) + [GroupName(row)]
  {
  }

  method FindGroup(groups: seq<Group>, name: string) returns (k: nat)
    ensures k <= |groups|
    ensures k < |groups| ==> groups[k].name == name
    ensures k == |groups| ==> name !in Names(groups)
  {
    k := 0;
    while k < |groups| && groups[k].name != name
      invariant k <= |groups|
      invariant forall i :: 0 <= i < k ==> groups[i].name != name
    {
      k := k + 1;
    }
  }

  function Appended(groups: seq<Group>, k: nat, row: Row): seq<Group>
    requires k < |groups|
  {
    groups[k := Group(groups[k].name, groups[k].rows + [row])]
  }

  lemma AppendKeepsNames(groups: seq<Group>, k: nat, row: Row)
    requires k < |groups|
    ensures Names(Appended(groups, k, row)) == Names(groups)
    ensures DistinctNames(groups) ==> DistinctNames(Appended(groups, k, row))
  {
  }

  lemma AppendToGroup(groups: seq<Group>, rows: seq<Row>, row: Row, k: nat)
    requires Groups(groups, rows) && k < |groups| && groups[k].name == GroupName(row)
    ensures Groups(Appended(groups, k, row), rows + [row])
  {
    var groups' := Appended(groups, k, row);
    AppendKeepsNames(groups, k, row);
    SeenAgain(rows, row);
    assert Names(groups)[k] in FirstSeen(rows);
    forall i | 0 <= i < |groups'| ensures groups'[i].rows == Of(rows + [row], groups'[i].name) {
      OfLast(rows, row, groups[i].name);
    }
  }

  lemma AddKeepsNames(groups: seq<Group>, g: Group)
    ensures Names(groups + [g]) == Names(groups) + [g.name]
    ensures g.name !in Names(groups) && DistinctNames(groups) ==> DistinctNames(groups + [g])
  {
    if g.name !in Names(groups) {
      assert forall i :: 0 <= i < |groups| ==> Names(groups)[i] == groups[i].name;
    }
  }

  lemma {:induction false} SeenRow(rows: seq<Row>, r: Row)
    requires r in rows
    ensures GroupName(r) in FirstSeen(rows)
  {
    SplitLast(rows);
    if r != rows[|rows| - 1] {
      SeenRow(rows[..|rows| - 1], r);
    }
  }

  lemma AddGroup(groups: seq<Group>, rows: seq<Row>, row: Row)
    requires Groups(groups, rows) && GroupName(row) !in Names(groups)
    ensures Groups(groups + [Group(GroupName(row), [row])], rows + [row])
  {
    var g := Group(GroupName(row), [row]);
    AddKeepsNames(groups, g);
    SeenAgain(rows, row);
    forall r | r in rows ensures GroupName(r) != GroupName(row) {
      SeenRow(rows, r);
    }
    OfMissing(rows, g.name);
    OfLast(rows, row, g.name);
    forall i | 0 <= i < |groups| ensures groups[i].rows == Of(rows + [row], groups[i].name) {
      OfLast(rows, row, groups[i].name);
      assert Names(groups)[i] == groups[i].name;
    }
  }

  lemma GroupsAreTheGroups(groups: seq<Group>, rows: seq<Row>)
    requires Groups(groups, rows)
    ensures groups == GroupsOf(rows)
  {
  }

  method GroupRows(rows: seq<Row>) returns (groups: seq<Group>)
    ensures groups == GroupsOf(rows)
  {
    groups := [];
    for n := 0 to |rows|
      invariant Groups(groups, rows[..n])
    {
      assert rows[..n + 1] == rows[..n] + [rows[n]];
      var k := FindGroup(groups, GroupName(rows[n]));
      if k < |groups| {
        AppendToGroup(groups, rows[..n], rows[n], k);
        groups := groups[k := groups[k].(rows := groups[k].rows + [rows[n]])];
      } else {
        AddGroup(groups, rows[..n], rows[n]);
        groups := groups + [Group(GroupName(rows[n]), [rows[n]])];
      }
    }
    assert rows[..|rows|] == rows;
    GroupsAreTheGroups(groups, rows);
  }

  // ---- what the passes add up to ----

  /** Everything the round robin would ever select, in its order. */
  function FullOrder(rows: seq<Row>, weights: Option<Weights>): seq<Row>
    requires ValidWeights(weights)
  {
    Passes(GroupsOf(rows), weights, |rows|)
  }

  lemma {:induction false} FirstSeenDistinct(rows: seq<Row>)
    ensures forall i, j :: 0 <= i < j < |FirstSeen(rows)| ==> FirstSeen(rows)[i] != FirstSeen(rows)[j]
  {
    if rows != [] {
      FirstSeenDistinct(rows[..|rows| - 1]);
    }
  }

  lemma {:induction false} OfNamed(rows: seq<Row>, name: string)
    ensures forall r :: r in Of(rows, name) ==> GroupName(r) == name && r in rows
    ensures |Of(rows, name)| <= |rows|
  {
    if rows != [] {
      OfNamed(rows[1..], name);
    }
  }

  lemma {:induction false} OfConcat(a: seq<Row>, b: seq<Row>, name: string)
    ensures Of(a + b, name) == Of(a, name) + Of(b, name)
  {
    if a == [] {
      assert a + b == b;
    } else {
      ConcatDrop(a, b, 1);
      OfConcat(a[1..], b, name);
      ConcatAssoc(if GroupName(a[0]) == name then [a[0]] else [], Of(a[1..], name), Of(b, name));
    }
  }

  lemma {:induction false} OfAll(rows: seq<Row>, name: string)
    requires forall r :: r in rows ==> GroupName(r) == name
    ensures Of(rows, name) == rows
  {
    if rows != [] {
      OfAll(rows[1..], name);
    }
  }

  /** Well-named groups: distinct names, each over rows of its own name. */
  ghost predicate Named(groups: seq<Group>) {
    && DistinctNames(groups)
    && forall i :: 0 <= i < |groups| ==> OnlyOwn(groups[i])
  }

  ghost predicate OnlyOwn(g: Group) {
    forall r :: r in g.rows ==> GroupName(r) == g.name
  }

  lemma GroupsOfNamed(rows: seq<Row>)
    ensures Named(GroupsOf(rows))
  {
    FirstSeenDistinct(rows);
    forall i | 0 <= i < |GroupsOf(rows)| ensures OnlyOwn(GroupsOf(rows)[i]) {
      OfNamed(rows, FirstSeen(rows)[i]);
    }
  }

  lemma ShareOf(g: Group, weight: int, pass: nat, name: string)
    requires weight >= 1 && OnlyOwn(g)
    ensures Of(Share(g, weight, pass), name) == if name == g.name then Share(g, weight, pass) else []
  {
    var share := Share(g, weight, pass);
    assert forall r :: r in share ==> r in g.rows;
    if name == g.name {
      OfAll(share, name);
    } else {
      OfMissing(share, name);
    }
  }

  lemma {:induction false} PassWithout(groups: seq<Group>, weights: Option<Weights>, pass: nat, name: string)
    requires ValidWeights(weights) && (forall i :: 0 <= i < |groups| ==> OnlyOwn(groups[i]) && groups[i].name != name)
    ensures Of(Pass(groups, weights, pass), name) == []
  {
    if groups != [] {
      var init, last := groups[..|groups| - 1], groups[|groups| - 1];
      PassWithout(init, weights, pass, name);
      OfConcat(Pass(init, weights, pass), Share(last, WeightOf(weights, last.name), pass), name);
      ShareOf(last, WeightOf(weights, last.name), pass, name);
    }
  }

  /** Of one pass, a group's part is its share. */
  lemma {:induction false} PassOf(groups: seq<Group>, weights: Option<Weights>, pass: nat, k: nat)
    requires ValidWeights(weights) && Named(groups) && k < |groups|
    ensures Of(Pass(groups, weights, pass), groups[k].name) == Share(groups[k], WeightOf(weights, groups[k].name), pass)
  {
    var init, last := groups[..|groups| - 1], groups[|groups| - 1];
    OfConcat(Pass(init, weights, pass), Share(last, WeightOf(weights, last.name), pass), groups[k].name);
    ShareOf(last, WeightOf(weights, last.name), pass, groups[k].name);
    if k < |groups| - 1 {
      PassOf(init, weights, pass, k);
    } else {
      PassWithout(init, weights, pass, last.name);
    }
  }

  lemma ReachGrows(g: Group, weight: int, pass: nat)
    requires weight >= 1
    ensures Reach(g, weight, pass) <= Reach(g, weight, pass + 1)
    ensures g.rows[..Reach(g, weight, pass)] + Share(g, weight, pass) == g.rows[..Reach(g, weight, pass + 1)]
  {
  }

  lemma OfPasses(groups: seq<Group>, weights: Option<Weights>, passes: nat, name: string)
    requires ValidWeights(weights)
    ensures Of(Passes(groups, weights, passes + 1), name) ==
            Of(Passes(groups, weights, passes), name) + Of(Pass(groups, weights, passes), name)
  {
    OfConcat(Passes(groups, weights, passes), Pass(groups, weights, passes), name);
  }

  lemma PassesStep(groups: seq<Group>, weights: Option<Weights>, passes: nat, k: nat)
    requires ValidWeights(weights) && Named(groups) && k < |groups|
    ensures Of(Passes(groups, weights, passes + 1), groups[k].name) ==
            Of(Passes(groups, weights, passes), groups[k].name)
              + Share(groups[k], WeightOf(weights, groups[k].name), passes)
  {
    OfPasses(groups, weights, passes, groups[k].name);
    PassOf(groups, weights, passes, k);
  }

  /** A group's shares, one after another. */
  function Shares(g: Group, weight: int, passes: nat): seq<Row>
    requires weight >= 1
  {
    if passes == 0 then [] else Shares(g, weight, passes - 1) + Share(g, weight, passes - 1)
  }

  lemma {:induction false} SharesReach(g: Group, weight: int, passes: nat)
    requires weight >= 1
    ensures Shares(g, weight, passes) == g.rows[..Reach(g, weight, passes)]
  {
    if passes > 0 {
      SharesReach(g, weight, passes - 1);
      ReachGrows(g, weight, passes - 1);
    }
  }

  lemma {:induction false} PassesShares(groups: seq<Group>, weights: Option<Weights>, passes: nat, k: nat)
    requires ValidWeights(weights) && Named(groups) && k < |groups|
    ensures Of(Passes(groups, weights, passes), groups[k].name) ==
            Shares(groups[k], WeightOf(weights, groups[k].name), passes)
  {
    if passes > 0 {
      var before := passes - 1;
      PassesShares(groups, weights, before, k);
      PassesStep(groups, weights, before, k);
    }
  }

  /** After `passes` complete passes a group has contributed its first `passes * weight` rows,
      or all of them. */
  lemma {:induction false} PassesContribute(rows: seq<Row>, weights: Option<Weights>, passes: nat, name: string,
                                            weight: nat, reach: nat)
    requires ValidWeights(weights) && name in FirstSeen(rows)
    requires weight == (if weights.Some? && name in weights.value then weights.value[name] else 1)
    requires reach == passes * weight
    ensures Of(Passes(GroupsOf(rows), weights, passes), name)
            == Of(rows, name)[..MinInt(|Of(rows, name)|, reach)]
  {
    var k :| 0 <= k < |FirstSeen(rows)| && FirstSeen(rows)[k] == name;
    GroupsOfNamed(rows);
    PassesShares(GroupsOf(rows), weights, passes, k);
    SharesReach(GroupsOf(rows)[k], WeightOf(weights, name), passes);
    ReachIs(GroupsOf(rows)[k], WeightOf(weights, name), passes);
  }

  // ---- the whole order ----

  ghost predicate Exhausted(groups: seq<Group>, weights: Option<Weights>, passes: nat)
    requires ValidWeights(weights)
  {
    forall k :: 0 <= k < |groups| ==> Reach(groups[k], WeightOf(weights, groups[k].name), passes) == |groups[k].rows|
  }

  lemma {:induction false} PassesWithout(groups: seq<Group>, weights: Option<Weights>, passes: nat, name: string)
    requires ValidWeights(weights) && (forall i :: 0 <= i < |groups| ==> OnlyOwn(groups[i]) && groups[i].name != name)
    ensures Of(Passes(groups, weights, passes), name) == []
  {
    if passes > 0 {
      var before := passes - 1;
      PassesWithout(groups, weights, before, name);
      PassWithout(groups, weights, before, name);
      OfPasses(groups, weights, before, name);
    }
  }

  lemma ExhaustedOf(rows: seq<Row>, weights: Option<Weights>, passes: nat, name: string)
    requires ValidWeights(weights) && Exhausted(GroupsOf(rows), weights, passes)
    ensures Of(Passes(GroupsOf(rows), weights, passes), name) == Of(rows, name)
  {
    var groups := GroupsOf(rows);
    GroupsOfNamed(rows);
    if name in FirstSeen(rows) {
      var k :| 0 <= k < |FirstSeen(rows)| && FirstSeen(rows)[k] == name;
      PassesShares(groups, weights, passes, k);
      SharesReach(groups[k], WeightOf(weights, name), passes);
    } else {
      PassesWithout(groups, weights, passes, name);
      forall r | r in rows ensures GroupName(r) != name {
        SeenRow(rows, r);
      }
      OfMissing(rows, name);
    }
  }

  lemma {:induction false} CountOf(s: seq<Row>, r: Row)
    ensures multiset(s)[r] == multiset(Of(s, GroupName(r)))[r]
  {
    if s != [] {
      CountOf(s[1..], r);
      assert s == [s[0]] + s[1..];
      var head := if GroupName(s[0]) == GroupName(r) then [s[0]] else [];
      assert multiset(head + Of(s[1..], GroupName(r))) == multiset(head) + multiset(Of(s[1..], GroupName(r)));
    }
  }

  /** Once every group is exhausted, the passes have selected each row exactly once. */
  lemma ExhaustedIsPermutation(rows: seq<Row>, weights: Option<Weights>, passes: nat)
    requires ValidWeights(weights) && Exhausted(GroupsOf(rows), weights, passes)
    ensures multiset(Passes(GroupsOf(rows), weights, passes)) == multiset(rows)
    ensures |Passes(GroupsOf(rows), weights, passes)| == |rows|
  {
    var all := Passes(GroupsOf(rows), weights, passes);
    forall r ensures multiset(all)[r] == multiset(rows)[r] {
      CountOf(all, r);
      CountOf(rows, r);
      ExhaustedOf(rows, weights, passes, GroupName(r));
    }
    assert |multiset(all)| == |all| && |multiset(rows)| == |rows|;
  }

  lemma EnoughPasses(rows: seq<Row>, weights: Option<Weights>, passes: nat)
    requires ValidWeights(weights) && passes >= |rows|
    ensures Exhausted(GroupsOf(rows), weights, passes)
  {
    forall k | 0 <= k < |GroupsOf(rows)|
      ensures Reach(GroupsOf(rows)[k], WeightOf(weights, GroupsOf(rows)[k].name), passes) == |GroupsOf(rows)[k].rows|
    {
      OfNamed(rows, FirstSeen(rows)[k]);
      ReachAtLeast(GroupsOf(rows)[k], WeightOf(weights, FirstSeen(rows)[k]), passes);
    }
  }

  lemma {:induction false} ReachAtLeast(g: Group, weight: int, passes: nat)
    requires weight >= 1
    ensures Reach(g, weight, passes) >= MinInt(passes, |g.rows|)
  {
    if passes > 0 {
      ReachAtLeast(g, weight, passes - 1);
    }
  }

  /** A pass without progress means every group is exhausted. */
  lemma {:induction false} EmptyPassExhausts(groups: seq<Group>, weights: Option<Weights>, passes: nat)
    requires ValidWeights(weights) && Pass(groups, weights, passes) == []
    ensures Exhausted(groups, weights, passes)
  {
    if groups != [] {
      var init, last := groups[..|groups| - 1], groups[|groups| - 1];
      EmptyPassExhausts(init, weights, passes);
      assert |Share(last, WeightOf(weights, last.name), passes)| == 0;
      forall k | 0 <= k < |groups|
        ensures Reach(groups[k], WeightOf(weights, groups[k].name), passes) == |groups[k].rows|
      {
        assert k < |init| ==> init[k] == groups[k];
      }
    }
  }

  lemma {:induction false} PassesArePrefixes(groups: seq<Group>, weights: Option<Weights>, p: nat, q: nat)
    requires ValidWeights(weights) && p <= q
    ensures Passes(groups, weights, p) <= Passes(groups, weights, q)
  {
    if p < q {
      PassesArePrefixes(groups, weights, p, q - 1);
    }
  }

  lemma ExhaustedIsFull(rows: seq<Row>, weights: Option<Weights>, passes: nat)
    requires ValidWeights(weights) && Exhausted(GroupsOf(rows), weights, passes)
    ensures Passes(GroupsOf(rows), weights, passes) == FullOrder(rows, weights)
  {
    EnoughPasses(rows, weights, |rows|);
    ExhaustedIsPermutation(rows, weights, passes);
    ExhaustedIsPermutation(rows, weights, |rows|);
    if passes <= |rows| {
      PassesArePrefixes(GroupsOf(rows), weights, passes, |rows|);
    } else {
      PassesArePrefixes(GroupsOf(rows), weights, |rows|, passes);
    }
  }

  lemma PassesWithinFull(rows: seq<Row>, weights: Option<Weights>, passes: nat)
    requires ValidWeights(weights)
    ensures Passes(GroupsOf(rows), weights, passes) <= FullOrder(rows, weights)
  {
    if passes <= |rows| {
      PassesArePrefixes(GroupsOf(rows), weights, passes, |rows|);
    } else {
      EnoughPasses(rows, weights, passes);
      ExhaustedIsFull(rows, weights, passes);
    }
  }

  /** The full order selects every row exactly once and keeps each group's own order. */
  lemma FullOrderIsFair(rows: seq<Row>, weights: Option<Weights>, name: string)
    requires ValidWeights(weights)
    ensures multiset(FullOrder(rows, weights)) == multiset(rows) && |FullOrder(rows, weights)| == |rows|
    ensures Of(FullOrder(rows, weights), name) == Of(rows, name)
  {
    EnoughPasses(rows, weights, |rows|);
    ExhaustedIsPermutation(rows, weights, |rows|);
    ExhaustedOf(rows, weights, |rows|, name);
  }

  /** However the selection is cut off, each group contributes a prefix of its rows. */
  lemma SelectionKeepsPrefixes(rows: seq<Row>, weights: Option<Weights>, limit: nat, name: string)
    requires ValidWeights(weights) && limit <= |FullOrder(rows, weights)|
    ensures Of(FullOrder(rows, weights)[..limit], name) <= Of(rows, name)
    ensures multiset(FullOrder(rows, weights)[..limit]) <= multiset(rows)
  {
    var full := FullOrder(rows, weights);
    FullOrderIsFair(rows, weights, name);
    SplitAt(full, limit);
    OfConcat(full[..limit], full[limit..], name);
    assert multiset(full[..limit] + full[limit..]) == multiset(full[..limit]) + multiset(full[limit..]);
  }

  // ---- the loops ----

  /** `for _ in range(weight)` over one group. */
  method TakeShare(g: Group, weight: int, offset: nat, selected: seq<Row>, limit: nat)
    returns (offset': nat, selected': seq<Row>)
    requires weight >= 1 && offset <= |g.rows| && |selected| < limit
    ensures offset <= offset' <= MinInt(|g.rows|, offset + weight)
    ensures selected' == selected + g.rows[offset..offset'] && |selected'| <= limit
    ensures |selected'| < limit ==> offset' == MinInt(|g.rows|, offset + weight)
  {
    offset', selected' := offset, selected;
    for taken := 0 to weight
      invariant offset' == offset + taken <= |g.rows|
      invariant selected' == selected + g.rows[offset..offset'] && |selected'| < limit
    {
      if offset' >= |g.rows| {
        return;
      }
      assert g.rows[offset..offset' + 1] == g.rows[offset..offset'] + [g.rows[offset']];
      selected' := selected' + [g.rows[offset']];
      offset' := offset' + 1;
      if |selected'| == limit {
        return;
      }
    }
  }

  ghost predicate OffsetsAt(groups: seq<Group>, weights: Option<Weights>, offsets: seq<nat>, from: nat, to: nat,
                            pass: nat)
    requires ValidWeights(weights)
  {
    && |offsets| == |groups| && to <= |groups|
    && forall k :: from <= k < to ==> offsets[k] == Reach(groups[k], WeightOf(weights, groups[k].name), pass)
  }

  lemma {:induction false} PassPrefix(groups: seq<Group>, weights: Option<Weights>, pass: nat, n: nat)
    requires ValidWeights(weights) && n <= |groups|
    ensures Pass(groups[..n], weights, pass) <= Pass(groups, weights, pass)
  {
    if n < |groups| {
      PassPrefix(groups[..|groups| - 1], weights, pass, n);
      assert groups[..|groups| - 1][..n] == groups[..n];
    } else {
      assert groups[..n] == groups;
    }
  }

  lemma PassNext(groups: seq<Group>, weights: Option<Weights>, pass: nat, n: nat)
    requires ValidWeights(weights) && n < |groups|
    ensures Pass(groups[..n + 1], weights, pass) ==
            Pass(groups[..n], weights, pass) + Share(groups[n], WeightOf(weights, groups[n].name), pass)
  {
    assert groups[..n + 1][..n] == groups[..n];
  }

  /** A selection cut off inside a group's share is a prefix of the pass. */
  lemma PartOfPass(done: seq<Row>, groups: seq<Group>, weights: Option<Weights>, pass: nat, n: nat, part: seq<Row>)
    requires ValidWeights(weights) && n < |groups|
    requires part <= Share(groups[n], WeightOf(weights, groups[n].name), pass)
    ensures done + Pass(groups[..n], weights, pass) + part <= done + Pass(groups, weights, pass)
  {
    PassNext(groups, weights, pass, n);
    PassPrefix(groups, weights, pass, n + 1);
    ConcatAssoc(done, Pass(groups[..n], weights, pass), part);
  }

  method OnePass(groups: seq<Group>, weights: Option<Weights>, ghost pass: nat, offsets: seq<nat>, selected: seq<Row>,
                 limit: nat)
    returns (offsets': seq<nat>, selected': seq<Row>)
    requires ValidWeights(weights) && OffsetsAt(groups, weights, offsets, 0, |groups|, pass)
    requires selected == Passes(groups, weights, pass) && |selected| < limit
    ensures selected' <= Passes(groups, weights, pass + 1) && |selected'| <= limit
    ensures |selected'| < limit ==>
              && selected' == Passes(groups, weights, pass + 1)
              && OffsetsAt(groups, weights, offsets', 0, |groups|, pass + 1)
  {
    offsets', selected' := offsets, selected;
    for n := 0 to |groups|
      invariant OffsetsAt(groups, weights, offsets', 0, n, pass + 1)
      invariant OffsetsAt(groups, weights, offsets', n, |groups|, pass)
      invariant selected' == selected + Pass(groups[..n], weights, pass) && |selected'| < limit
    {
      ghost var before := selected';
      var offset: nat;
      offset, selected' := TakeShare(groups[n], WeightOf(weights, groups[n].name), offsets'[n], selected', limit);
      ghost var part := groups[n].rows[offsets'[n]..offset];
      PartOfPass(selected, groups, weights, pass, n, part);
      offsets' := offsets'[n := offset];
      if |selected'| == limit {
        return;
      }
      PassNext(groups, weights, pass, n);
      ConcatAssoc(selected, Pass(groups[..n], weights, pass), part);
    }
    assert groups[..|groups|] == groups;
  }

  /** A pass that selects nothing is the end of the full order. */
  lemma NoProgress(rows: seq<Row>, weights: Option<Weights>, pass: nat)
    requires ValidWeights(weights)
    requires |Passes(GroupsOf(rows), weights, pass + 1)| == |Passes(GroupsOf(rows), weights, pass)|
    ensures Passes(GroupsOf(rows), weights, pass + 1) == FullOrder(rows, weights)
  {
    assert |Pass(GroupsOf(rows), weights, pass)| == 0;
    EmptyPassExhausts(GroupsOf(rows), weights, pass);
    ExhaustedIsFull(rows, weights, pass);
    assert Passes(GroupsOf(rows), weights, pass + 1) == Passes(GroupsOf(rows), weights, pass);
  }

  lemma CutOff(selected: seq<Row>, full: seq<Row>, limit: int)
    requires selected <= full && |selected| <= MaxInt(0, limit)
    requires |selected| < limit ==> selected == full
    ensures selected == full[..MinInt(MaxInt(0, limit), |full|)]
  {
  }

  /** The state between two passes. */
  ghost predicate BetweenPasses(rows: seq<Row>, weights: Option<Weights>, offsets: seq<nat>, selected: seq<Row>,
                                limit: int, pass: nat)
    requires ValidWeights(weights)
  {
    && selected <= FullOrder(rows, weights) && |selected| <= MaxInt(0, limit)
    && (|selected| < limit ==>
          selected == Passes(GroupsOf(rows), weights, pass)
          && OffsetsAt(GroupsOf(rows), weights, offsets, 0, |GroupsOf(rows)|, pass))
  }

  /** The round robin returns the full order cut at the limit. */
  method SelectStratified(rows: seq<Row>, limit: int, weights: Option<Weights>) returns (selected: seq<Row>)
    requires ValidWeights(weights)
    ensures selected == FullOrder(rows, weights)[..MinInt(MaxInt(0, limit), |FullOrder(rows, weights)|)]
  {
    var groups := GroupRows(rows);
    var offsets: seq<nat> := seq(|groups|, _ => 0);
    selected := [];
    ghost var pass := 0;
    while |selected| < limit
      invariant BetweenPasses(rows, weights, offsets, selected, limit, pass)
      decreases limit - |selected|
    {
      var previous := |selected|;
      PassesWithinFull(rows, weights, pass + 1);
      offsets, selected := OnePass(groups, weights, pass, offsets, selected, limit);
      if |selected| == previous {
        NoProgress(rows, weights, pass);
        break;
      }
      pass := pass + 1;
    }
    CutOff(selected, FullOrder(rows, weights), limit);
  }

  method SelectInstances(rows: seq<Row>, limit: int, selection: Selection, weights: Option<Weights>) returns (r: Result)
    ensures selection.First? ==>
              r == if weights.Some? && weights.value != map[] then WeightsNeedStratified
                   else Selected(rows[..Cut(|rows|, limit)])
    ensures selection.Unsupported? ==> r == UnsupportedSelection
    ensures selection.Stratified? && !ValidWeights(weights) ==> r == WeightTooSmall
    ensures r == WeightTooSmall <==>
              selection.Stratified? && weights.Some?
              && exists name :: name in weights.value && weights.value[name] < 1
    ensures selection.Stratified? && ValidWeights(weights) ==>
              && |FullOrder(rows, weights)| == |rows|
              && r == Selected(FullOrder(rows, weights)[..MinInt(MaxInt(0, limit), |rows|)])
  {
    if selection.First? {
      if weights.Some? && weights.value != map[] {
        return WeightsNeedStratified;
      }
      return Selected(rows[..Cut(|rows|, limit)]);
    }
    if selection.Unsupported? {
      return UnsupportedSelection;
    }
    if !ValidWeights(weights) {
      return WeightTooSmall;
    }
    FullOrderIsFair(rows, weights, "");
    var selected := SelectStratified(rows, limit, weights);
    r := Selected(selected);
  }
}
