/** Whatever boots crash and wherever they do, a volume that counts as repaired is repaired. */
module OwnershipRepairTheorems {
  import opened Common
  import opened OwnershipRepair

  // ---- the walk reaches everything ----

  /** There is an entry at this path below the listing, whatever order it is listed in. */
  predicate HasPath(entries: seq<Node>, p: Path)
    decreases entries
  {
    p != [] && exists i | 0 <= i < |entries| ::
      entries[i].name == p[0] && (|p| == 1 || (entries[i].Dir? && HasPath(entries[i].children, p[1..])))
  }

  predicate Below(base: Path, entries: seq<Node>, p: Path) {
    base <= p && HasPath(entries, p[|base|..])
  }

  lemma {:induction false} NamesCover(base: Path, entries: seq<Node>, dirs: bool, p: Path)
    ensures p in Names(base, entries, dirs) <==>
            exists i :: 0 <= i < |entries| && ListedAsDir(entries[i]) == dirs && p == base + [entries[i].name]
  {
    if entries != [] {
      NamesCover(base, entries[1..], dirs, p);
      forall i | 0 < i < |entries| ensures entries[i] == entries[1..][i - 1] {
      }
    }
  }

  /** The walk changes exactly the entries of the tree, at every depth. */
  lemma {:induction false} WalkCovers(base: Path, entries: seq<Node>, p: Path)
    ensures p in Walk(base, entries) <==> Below(base, entries, p)
    decreases entries, 1
  {
    SubwalksCover(base, entries, p);
    NamesCover(base, entries, true, p);
    NamesCover(base, entries, false, p);
  }

  predicate InSubtree(base: Path, entry: Node, p: Path) {
    entry.Dir? && Below(base + [entry.name], entry.children, p)
  }

  lemma {:induction false} SubwalksCover(base: Path, entries: seq<Node>, p: Path)
    ensures p in Subwalks(base, entries) <==> exists i :: 0 <= i < |entries| && InSubtree(base, entries[i], p)
    decreases entries, 0
  {
    if entries != [] {
      SubwalksCover(base, entries[1..], p);
      forall i | 0 < i < |entries| ensures entries[i] == entries[1..][i - 1] {
      }
      if entries[0].Dir? {
        WalkCovers(base + [entries[0].name], entries[0].children, p);
      }
    }
  }

  /** No two entries of a listing share a name, at any depth. */
  ghost predicate UniqueNames(entries: seq<Node>)
    decreases entries
  {
    && (forall i, j :: 0 <= i < j < |entries| ==> entries[i].name != entries[j].name)
    && (forall i :: 0 <= i < |entries| && entries[i].Dir? ==> UniqueNames(entries[i].children))
  }

  lemma NamesAreDirectlyBelow(base: Path, entries: seq<Node>, dirs: bool, p: Path)
    requires p in Names(base, entries, dirs)
    ensures |p| == |base| + 1
  {
    NamesCover(base, entries, dirs, p);
  }

  /** What a subwalk changes lies below one of the listed directories. */
  lemma SubwalkPath(base: Path, entries: seq<Node>, p: Path)
    requires p in Subwalks(base, entries)
    ensures |p| >= |base| + 2 && exists k :: 0 <= k < |entries| && entries[k].Dir? && p[|base|] == entries[k].name
  {
    SubwalksCover(base, entries, p);
    var k :| 0 <= k < |entries| && InSubtree(base, entries[k], p);
    var below := base + [entries[k].name];
    assert HasPath(entries[k].children, p[|below|..]) && below <= p;
    assert p[|base|] == below[|base|];
  }

  /** Bottom-up: no directory is changed before something inside it. */
  lemma {:induction false} WalkIsBottomUp(base: Path, entries: seq<Node>, i: nat, j: nat)
    requires UniqueNames(entries) && i < j < |Walk(base, entries)|
    ensures !(Walk(base, entries)[i] < Walk(base, entries)[j])
    decreases entries, 1
  {
    var walk, subs := Walk(base, entries), Subwalks(base, entries);
    if j < |subs| {
      SubwalksAreBottomUp(base, entries, i, j);
    } else if walk[i] < walk[j] {
      var names := Names(base, entries, true) + Names(base, entries, false);
      assert walk == subs + names;
      assert walk[j] == names[j - |subs|];
      NamesAreDirectlyBelow(base, entries, walk[j] in Names(base, entries, true), walk[j]);
      if i < |subs| {
        SubwalkPath(base, entries, walk[i]);
      } else {
        assert walk[i] == names[i - |subs|];
        NamesAreDirectlyBelow(base, entries, walk[i] in Names(base, entries, true), walk[i]);
      }
      assert false;
    }
  }

  lemma {:induction false} SubwalksAreBottomUp(base: Path, entries: seq<Node>, i: nat, j: nat)
    requires UniqueNames(entries) && i < j < |Subwalks(base, entries)|
    ensures !(Subwalks(base, entries)[i] < Subwalks(base, entries)[j])
    decreases entries, 0
  {
    var e, rest := entries[0], entries[1..];
    var below := base + [e.name];
    var first := if e.Dir? then Walk(below, e.children) else [];
    assert Subwalks(base, entries) == first + Subwalks(base, rest);
    if j < |first| {
      WalkIsBottomUp(below, e.children, i, j);
    } else if i >= |first| {
      SubwalksAreBottomUp(base, rest, i - |first|, j - |first|);
    } else {
      var p, q := first[i], Subwalks(base, rest)[j - |first|];
      WalkCovers(below, e.children, p);
      assert below <= p && p[|base|] == below[|base|];
      SubwalkPath(base, rest, q);
      var k :| 0 <= k < |rest| && q[|base|] == rest[k].name;
      assert entries[k + 1] == rest[k];
    }
  }

  /** Of one listing the directories, and the links to directories, come before the files. */
  lemma DirectoriesBeforeFiles(base: Path, entries: seq<Node>, d: Node, f: Node, i: nat)
    requires UniqueNames(entries) && d in entries && !d.File? && f in entries && f.File?
    requires i < |Walk(base, entries)| && Walk(base, entries)[i] == base + [f.name]
    ensures base + [d.name] in Walk(base, entries)[..i]
  {
    var subs, dirs, files := Subwalks(base, entries), Names(base, entries, true), Names(base, entries, false);
    var q := base + [f.name];
    NamesCover(base, entries, true, q);
    if q in subs {
      SubwalkPath(base, entries, q);
    }
    assert Walk(base, entries) == subs + dirs + files;
    assert forall k :: 0 <= k < |subs| ==> subs[k] in subs;
    assert forall k :: 0 <= k < |dirs| ==> dirs[k] in dirs;
    forall k | 0 <= k < |entries| && ListedAsDir(entries[k]) ensures q != base + [entries[k].name] {
      assert (base + [entries[k].name])[|base|] == entries[k].name && q[|base|] == f.name;
    }
    NamesCover(base, entries, true, base + [d.name]);
    assert i >= |subs| + |dirs|;
    var j :| 0 <= j < |dirs| && dirs[j] == base + [d.name];
    assert Walk(base, entries)[..i][|subs| + j] == base + [d.name];
  }

  // ---- the sentinel's text ----

  ghost predicate Blank(s: string) {
    forall i :: 0 <= i < |s| ==> IsSpace(s[i])
  }

  /** No surrounding white space, as in every "uid:gid". */
  ghost predicate Trimmed(s: string) {
    s != "" ==> !IsSpace(s[0]) && !IsSpace(s[|s| - 1])
  }

  lemma {:induction false} LeftStripSplits(s: string) returns (a: string)
    ensures s == a + LeftStrip(s) && Blank(a)
    ensures LeftStrip(s) != "" ==> !IsSpace(LeftStrip(s)[0])
  {
    a := "";
    if s != "" && IsSpace(s[0]) {
      var b := LeftStripSplits(s[1..]);
      a := [s[0]] + b;
    }
  }

  lemma {:induction false} RightStripSplits(s: string) returns (b: string)
    ensures s == RightStrip(s) + b && Blank(b)
  {
    b := "";
    if s != "" && IsSpace(s[|s| - 1]) {
      var c := RightStripSplits(s[..|s| - 1]);
      b := c + [s[|s| - 1]];
    }
  }

  lemma {:induction false} LeftStripDrops(a: string, s: string)
    requires Blank(a) && (s != "" ==> !IsSpace(s[0]))
    ensures LeftStrip(a + s) == s
  {
    if a == "" {
      assert a + s == s;
    } else {
      LeftStripDrops(a[1..], s);
      assert (a + s)[1..] == a[1..] + s;
    }
  }

  lemma {:induction false} RightStripDrops(s: string, b: string)
    requires Blank(b) && (s != "" ==> !IsSpace(s[|s| - 1]))
    ensures RightStrip(s + b) == s
  {
    if b == "" {
      assert s + b == s;
    } else {
      RightStripDrops(s, b[..|b| - 1]);
      assert (s + b)[..|s + b| - 1] == s + b[..|b| - 1];
    }
  }

  lemma StripSplits(text: string) returns (a: string, b: string)
    ensures Blank(a) && Blank(b) && text == a + RightStrip(LeftStrip(text)) + b
  {
    a := LeftStripSplits(text);
    b := RightStripSplits(LeftStrip(text));
    ConcatAssoc(a, RightStrip(LeftStrip(text)), b);
  }

  lemma StripDrops(a: string, stamp: string, b: string)
    requires Blank(a) && Blank(b) && stamp != "" && Trimmed(stamp)
    ensures RightStrip(LeftStrip(a + stamp + b)) == stamp
  {
    ConcatAssoc(a, stamp, b);
    LeftStripDrops(a, stamp + b);
    RightStripDrops(stamp, b);
  }

  /** The sentinel vouches for an owner exactly when its text is that owner's stamp, possibly
      surrounded by white space. */
  lemma SentinelMatchesIff(v: Volume, stamp: string)
    requires stamp != "" && Trimmed(stamp)
    ensures SentinelMatches(v, stamp) <==>
            v.sentinel.Some? && exists a, b :: Blank(a) && Blank(b) && v.sentinel.value == a + stamp + b
  {
    if v.sentinel.Some? {
      var a, b := StripSplits(v.sentinel.value);
      forall x, y | Blank(x) && Blank(y) && v.sentinel.value == x + stamp + y ensures SentinelMatches(v, stamp) {
        StripDrops(x, stamp, y);
      }
    }
  }

  // ---- what an interrupted boot leaves ----

  /** Every entry below the root, except possibly the sentinel, has the right owner. */
  ghost predicate TreeOwned(v: Volume, entries: seq<Node>, stamp: string) {
    forall p :: HasPath(entries, p) && p != SENTINEL ==> OwnedBy(v, p, stamp)
  }

  lemma {:induction false} OwnersOnlyImprove(v: Volume, effects: seq<Effect>, stamp: string, p: Path)
    requires OwnedBy(v, p, stamp) && (v.sentinel.Some? || p != SENTINEL)
    ensures OwnedBy(ApplyAll(v, effects, stamp), p, stamp)
  {
    if effects != [] {
      var init := effects[..|effects| - 1];
      OwnersOnlyImprove(v, init, stamp, p);
      SentinelStays(v, init, stamp);
    }
  }

  lemma {:induction false} SentinelStays(v: Volume, effects: seq<Effect>, stamp: string)
    ensures v.sentinel.Some? ==> ApplyAll(v, effects, stamp).sentinel.Some?
    ensures (forall i :: 0 <= i < |effects| ==> effects[i].Chown?) ==>
              ApplyAll(v, effects, stamp).sentinel == v.sentinel
  {
    if effects != [] {
      SentinelStays(v, effects[..|effects| - 1], stamp);
    }
  }

  lemma {:induction false} ChownTakes(v: Volume, effects: seq<Effect>, stamp: string, i: nat)
    requires i < |effects| && effects[i].Chown?
    requires v.sentinel.Some? || effects[i].path != SENTINEL
    ensures OwnedBy(ApplyAll(v, effects, stamp), effects[i].path, stamp)
  {
    if i < |effects| - 1 {
      var init := effects[..|effects| - 1];
      ChownTakes(v, init, stamp, i);
      SentinelStays(v, init, stamp);
    }
  }

  lemma WholeWalkOwnsTree(v: Volume, entries: seq<Node>, stamp: string, steps: nat, p: Path)
    requires HasPath(entries, p) && p != SENTINEL
    requires |WalkEffects(v, entries)| <= steps <= |RepairEffects(v, entries, stamp)|
    ensures OwnedBy(ApplyAll(v, RepairEffects(v, entries, stamp)[..steps], stamp), p, stamp)
  {
    WalkCovers(ROOT, entries, p);
    assert p[|ROOT|..] == p;
    var i :| 0 <= i < |Walk(ROOT, entries)| && Walk(ROOT, entries)[i] == p;
    assert RepairEffects(v, entries, stamp)[..steps][i] == Chown(p);
    ChownTakes(v, RepairEffects(v, entries, stamp)[..steps], stamp, i);
  }

  ghost predicate Sound(v: Volume, entries: seq<Node>, stamp: string) {
    SentinelMatches(v, stamp) ==> TreeOwned(v, entries, stamp)
  }

  lemma BootKeepsSound(v: Volume, entries: seq<Node>, stamp: string, steps: nat)
    requires Sound(v, entries, stamp)
    ensures Sound(Booted(v, entries, stamp, steps), entries, stamp)
  {
    var walk, effects := WalkEffects(v, entries), RepairEffects(v, entries, stamp);
    var done := MinInt(steps, |effects|);
    if !RepairDone(v, stamp) && done >= |walk| {
      forall p | HasPath(entries, p) && p != SENTINEL ensures OwnedBy(ApplyAll(v, effects[..done], stamp), p, stamp) {
        WholeWalkOwnsTree(v, entries, stamp, done, p);
      }
    } else if !RepairDone(v, stamp) {
      SentinelStays(v, effects[..done], stamp);
      forall p | OwnedBy(v, p, stamp) && p != SENTINEL ensures OwnedBy(ApplyAll(v, effects[..done], stamp), p, stamp) {
        OwnersOnlyImprove(v, effects[..done], stamp, p);
      }
    }
  }

  lemma {:induction false} BootsKeepSound(v: Volume, entries: seq<Node>, stamp: string, boots: seq<nat>)
    requires Sound(v, entries, stamp)
    ensures Sound(BootedAll(v, entries, stamp, boots), entries, stamp)
  {
    if boots != [] {
      BootsKeepSound(v, entries, stamp, boots[..|boots| - 1]);
      BootKeepsSound(BootedAll(v, entries, stamp, boots[..|boots| - 1]), entries, stamp, boots[|boots| - 1]);
    }
  }

  // ---- the theorems ----

  /** Start without a matching sentinel and boot any number of times, cut off anywhere: when
      the early return is taken, the root and every entry but perhaps the sentinel are right. */
  lemma EarlyReturnIsSafe(v: Volume, entries: seq<Node>, stamp: string, boots: seq<nat>)
    requires !SentinelMatches(v, stamp)
    requires RepairDone(BootedAll(v, entries, stamp, boots), stamp)
    ensures var v' := BootedAll(v, entries, stamp, boots);
            OwnedBy(v', ROOT, stamp) && TreeOwned(v', entries, stamp)
  {
    BootsKeepSound(v, entries, stamp, boots);
  }

  /** The root is right only once the sentinel's own owner is. */
  ghost predicate RootLast(v: Volume, stamp: string) {
    OwnedBy(v, ROOT, stamp) ==> v.sentinel.Some? && OwnedBy(v, SENTINEL, stamp)
  }

  lemma {:induction false} RootUntouched(v: Volume, effects: seq<Effect>, stamp: string)
    requires forall i :: 0 <= i < |effects| ==> effects[i] != Chown(ROOT)
    ensures OwnedBy(ApplyAll(v, effects, stamp), ROOT, stamp) == OwnedBy(v, ROOT, stamp)
  {
    if effects != [] {
      RootUntouched(v, effects[..|effects| - 1], stamp);
    }
  }

  lemma OnlyLastEffectIsRoot(v: Volume, entries: seq<Node>, stamp: string, i: nat)
    requires i < |RepairEffects(v, entries, stamp)| - 1
    ensures RepairEffects(v, entries, stamp)[i] != Chown(ROOT)
  {
    if i < |Walk(ROOT, entries)| {
      WalkCovers(ROOT, entries, Walk(ROOT, entries)[i]);
    }
  }

  lemma BootKeepsRootLast(v: Volume, entries: seq<Node>, stamp: string, steps: nat)
    requires RootLast(v, stamp)
    ensures RootLast(Booted(v, entries, stamp, steps), stamp)
  {
    var effects := RepairEffects(v, entries, stamp);
    if !RepairDone(v, stamp) {
      if steps < |effects| {
        forall i | 0 <= i < steps ensures effects[..steps][i] != Chown(ROOT) {
          OnlyLastEffectIsRoot(v, entries, stamp, i);
        }
        RootUntouched(v, effects[..steps], stamp);
        SentinelStays(v, effects[..steps], stamp);
        if OwnedBy(v, ROOT, stamp) {
          OwnersOnlyImprove(v, effects[..steps], stamp, SENTINEL);
        }
      } else {
        assert effects[..|effects|] == effects;
        WholeRepair(v, entries, stamp);
      }
    }
  }

  lemma LastThree(v: Volume, effects: seq<Effect>, stamp: string, n: nat)
    requires |effects| == n + 3
    requires effects[n] == Write(stamp) && effects[n + 1] == Chown(SENTINEL) && effects[n + 2] == Chown(ROOT)
    ensures var v' := ApplyAll(v, effects, stamp);
            v'.sentinel == Some(stamp) && OwnedBy(v', SENTINEL, stamp) && OwnedBy(v', ROOT, stamp)
  {
    assert effects[..n + 3] == effects;
    NextEffect(v, effects, n + 2, stamp);
    NextEffect(v, effects, n + 1, stamp);
    NextEffect(v, effects, n, stamp);
  }

  lemma WholeRepair(v: Volume, entries: seq<Node>, stamp: string)
    ensures var v' := ApplyAll(v, RepairEffects(v, entries, stamp), stamp);
            v'.sentinel == Some(stamp) && OwnedBy(v', SENTINEL, stamp) && OwnedBy(v', ROOT, stamp)
  {
    EffectsInOrder(v, entries, stamp);
    assert stamp[..|stamp|] == stamp;
    LastThree(v, RepairEffects(v, entries, stamp), stamp, |WalkEffects(v, entries)| + |stamp|);
  }

  lemma {:induction false} BootsKeepRootLast(v: Volume, entries: seq<Node>, stamp: string, boots: seq<nat>)
    requires RootLast(v, stamp)
    ensures RootLast(BootedAll(v, entries, stamp, boots), stamp)
  {
    if boots != [] {
      BootsKeepRootLast(v, entries, stamp, boots[..|boots| - 1]);
      BootKeepsRootLast(BootedAll(v, entries, stamp, boots[..|boots| - 1]), entries, stamp, boots[|boots| - 1]);
    }
  }

  /** A sentinel that is there before the walk is chowned by the walk, its last effect. */
  lemma WholeWalkOwnsSentinel(v: Volume, entries: seq<Node>, stamp: string, steps: nat)
    requires v.sentinel.Some? && |WalkEffects(v, entries)| <= steps <= |RepairEffects(v, entries, stamp)|
    ensures OwnedBy(ApplyAll(v, RepairEffects(v, entries, stamp)[..steps], stamp), SENTINEL, stamp)
  {
    var i := |WalkEffects(v, entries)| - 1;
    assert RepairEffects(v, entries, stamp)[..steps][i] == Chown(SENTINEL);
    ChownTakes(v, RepairEffects(v, entries, stamp)[..steps], stamp, i);
  }

  lemma WalkKeepsSentinel(v: Volume, entries: seq<Node>, stamp: string, steps: nat)
    requires steps <= |WalkEffects(v, entries)|
    ensures ApplyAll(v, RepairEffects(v, entries, stamp)[..steps], stamp).sentinel == v.sentinel
  {
    var effects := RepairEffects(v, entries, stamp);
    forall i | 0 <= i < steps ensures effects[..steps][i].Chown? {
      assert effects[i] == WalkEffects(v, entries)[i];
    }
    SentinelStays(v, effects[..steps], stamp);
  }

  ghost predicate SentinelSound(v: Volume, stamp: string) {
    v.sentinel.Some? && (SentinelMatches(v, stamp) ==> OwnedBy(v, SENTINEL, stamp))
  }

  lemma BootKeepsSentinelSound(v: Volume, entries: seq<Node>, stamp: string, steps: nat)
    requires SentinelSound(v, stamp)
    ensures SentinelSound(Booted(v, entries, stamp, steps), stamp)
  {
    if !RepairDone(v, stamp) {
      var n, effects := |WalkEffects(v, entries)|, RepairEffects(v, entries, stamp);
      var done := MinInt(steps, |effects|);
      SentinelStays(v, effects[..done], stamp);
      if done >= n {
        WholeWalkOwnsSentinel(v, entries, stamp, done);
      } else {
        WalkKeepsSentinel(v, entries, stamp, done);
        if SentinelMatches(v, stamp) {
          OwnersOnlyImprove(v, effects[..done], stamp, SENTINEL);
        }
      }
    }
  }

  lemma {:induction false} BootsKeepSentinelSound(v: Volume, entries: seq<Node>, stamp: string, boots: seq<nat>)
    requires SentinelSound(v, stamp)
    ensures SentinelSound(BootedAll(v, entries, stamp, boots), stamp)
  {
    if boots != [] {
      BootsKeepSentinelSound(v, entries, stamp, boots[..|boots| - 1]);
      BootKeepsSentinelSound(BootedAll(v, entries, stamp, boots[..|boots| - 1]), entries, stamp, boots[|boots| - 1]);
    }
  }

  /** With the root wrong at the start, or a stale sentinel already there, the early return
      covers the sentinel too: the root comes last, and the walk chowns an old sentinel. */
  lemma EarlyReturnCoversSentinel(v: Volume, entries: seq<Node>, stamp: string, boots: seq<nat>)
    requires !SentinelMatches(v, stamp) && (v.sentinel.Some? || !OwnedBy(v, ROOT, stamp))
    requires RepairDone(BootedAll(v, entries, stamp, boots), stamp)
    ensures var v' := BootedAll(v, entries, stamp, boots);
            OwnedBy(v', ROOT, stamp) && OwnedBy(v', SENTINEL, stamp) && TreeOwned(v', entries, stamp)
  {
    BootsKeepSound(v, entries, stamp, boots);
    if v.sentinel.Some? {
      BootsKeepSentinelSound(v, entries, stamp, boots);
    } else {
      BootsKeepRootLast(v, entries, stamp, boots);
    }
  }

  /** With a root right from the start and no sentinel yet the exception is real: a crash
      right after the sentinel's text is complete leaves it owned by the superuser for good. */
  lemma SentinelMayStayMisowned(v: Volume, entries: seq<Node>, stamp: string, later: seq<nat>)
    requires v.sentinel.None? && OwnedBy(v, ROOT, stamp) && RightStrip(LeftStrip(stamp)) == stamp && stamp != "0:0"
    ensures var steps := |WalkEffects(v, entries)| + |stamp| + 1;
            var v' := BootedAll(Booted(v, entries, stamp, steps), entries, stamp, later);
            RepairDone(v', stamp) && !OwnedBy(v', SENTINEL, stamp)
  {
    var n, effects := |WalkEffects(v, entries)|, RepairEffects(v, entries, stamp);
    assert n + |stamp| + 1 < |effects| by {
      EffectsInOrder(v, entries, stamp);
    }
    OwnersOnlyImprove(v, effects[..n + |stamp| + 1], stamp, ROOT);
    WritesKeepOwner(v, entries, stamp, |stamp|);
    assert stamp[..|stamp|] == stamp;
    DoneStays(Booted(v, entries, stamp, n + |stamp| + 1), entries, stamp, later);
  }

  lemma {:induction false} WritesKeepOwner(v: Volume, entries: seq<Node>, stamp: string, k: nat)
    requires v.sentinel.None? && k <= |stamp|
    ensures var v' := ApplyAll(v, RepairEffects(v, entries, stamp)[..|WalkEffects(v, entries)| + k + 1], stamp);
            v'.sentinel == Some(stamp[..k]) && SENTINEL in v'.owner && v'.owner[SENTINEL] == "0:0"
  {
    var n, effects := |WalkEffects(v, entries)|, RepairEffects(v, entries, stamp);
    EffectsInOrder(v, entries, stamp);
    assert effects[n + k] == Write(stamp[..k]);
    NextEffect(v, effects, n + k, stamp);
    if k == 0 {
      SentinelStays(v, effects[..n], stamp);
    } else {
      WritesKeepOwner(v, entries, stamp, k - 1);
    }
  }

  lemma {:induction false} DoneStays(v: Volume, entries: seq<Node>, stamp: string, boots: seq<nat>)
    requires RepairDone(v, stamp)
    ensures BootedAll(v, entries, stamp, boots) == v
  {
    if boots != [] {
      DoneStays(v, entries, stamp, boots[..|boots| - 1]);
    }
  }

  /** When the runtime user is the superuser, a new sentinel already has the right owner. */
  lemma {:induction false} SuperuserOwnsSentinel(v: Volume, effects: seq<Effect>)
    requires v.sentinel.Some? ==> OwnedBy(v, SENTINEL, "0:0")
    ensures ApplyAll(v, effects, "0:0").sentinel.Some? ==> OwnedBy(ApplyAll(v, effects, "0:0"), SENTINEL, "0:0")
  {
    if effects != [] {
      SuperuserOwnsSentinel(v, effects[..|effects| - 1]);
    }
  }

  lemma {:induction false} SuperuserBoots(v: Volume, entries: seq<Node>, boots: seq<nat>)
    requires v.sentinel.Some? ==> OwnedBy(v, SENTINEL, "0:0")
    ensures BootedAll(v, entries, "0:0", boots).sentinel.Some? ==>
              OwnedBy(BootedAll(v, entries, "0:0", boots), SENTINEL, "0:0")
  {
    if boots != [] {
      var before := BootedAll(v, entries, "0:0", boots[..|boots| - 1]);
      SuperuserBoots(v, entries, boots[..|boots| - 1]);
      var effects := RepairEffects(before, entries, "0:0");
      SuperuserOwnsSentinel(before, effects[..MinInt(boots[|boots| - 1], |effects|)]);
    }
  }

  ghost predicate EarlyReturnAlwaysCoversSentinel(v: Volume, entries: seq<Node>, stamp: string) {
    forall boots :: RepairDone(BootedAll(v, entries, stamp, boots), stamp) ==>
      OwnedBy(BootedAll(v, entries, stamp, boots), SENTINEL, stamp)
  }

  /** The exact condition: started without a matching sentinel, the early return covers the
      sentinel in every history of boots if and only if a stale sentinel was there, the root
      was wrong, or the runtime user is the superuser.  A stamp has no white space. */
  lemma SentinelCoveredIff(v: Volume, entries: seq<Node>, stamp: string)
    requires !SentinelMatches(v, stamp) && RightStrip(LeftStrip(stamp)) == stamp
    ensures EarlyReturnAlwaysCoversSentinel(v, entries, stamp) <==>
            v.sentinel.Some? || !OwnedBy(v, ROOT, stamp) || stamp == "0:0"
  {
    if v.sentinel.Some? || !OwnedBy(v, ROOT, stamp) || stamp == "0:0" {
      forall boots | RepairDone(BootedAll(v, entries, stamp, boots), stamp)
        ensures OwnedBy(BootedAll(v, entries, stamp, boots), SENTINEL, stamp)
      {
        if v.sentinel.Some? || !OwnedBy(v, ROOT, stamp) {
          EarlyReturnCoversSentinel(v, entries, stamp, boots);
        } else {
          SuperuserBoots(v, entries, boots);
        }
      }
    } else {
      var boot := [|WalkEffects(v, entries)| + |stamp| + 1];
      SentinelMayStayMisowned(v, entries, stamp, []);
      assert boot[..0] == [];
      assert BootedAll(v, entries, stamp, boot) == Booted(v, entries, stamp, boot[0]);
    }
  }

  /** One boot that is not cut off repairs everything, the sentinel included, and every later
      boot returns early. */
  lemma WholeBootRepairs(v: Volume, entries: seq<Node>, stamp: string, steps: nat, later: seq<nat>)
    requires RightStrip(LeftStrip(stamp)) == stamp
    requires !RepairDone(v, stamp) && steps >= |RepairEffects(v, entries, stamp)|
    ensures var v' := Booted(v, entries, stamp, steps);
            && RepairDone(v', stamp) && OwnedBy(v', SENTINEL, stamp) && TreeOwned(v', entries, stamp)
            && BootedAll(v', entries, stamp, later) == v'
  {
    var effects := RepairEffects(v, entries, stamp);
    assert effects[..|effects|] == effects;
    WholeRepair(v, entries, stamp);
    forall p | HasPath(entries, p) && p != SENTINEL ensures OwnedBy(ApplyAll(v, effects, stamp), p, stamp) {
      WholeWalkOwnsTree(v, entries, stamp, |effects|, p);
    }
    DoneStays(Booted(v, entries, stamp, steps), entries, stamp, later);
  }
}
