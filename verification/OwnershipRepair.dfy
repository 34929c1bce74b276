/** The one-time ownership repair of the data volume: a bottom-up walk, a completion
    sentinel and the root last, interrupted by a crash at any point and run again by the
    next boot.  Owners are `uid:gid` stamps, fixed for all boots. */
module OwnershipRepair {
  import opened Common

  /** A directory's entries.  A link to a directory is listed with the directories and not
      descended into. */
  datatype Node = File(name: string) | DirLink(name: string) | Dir(name: string, children: seq<Node>)

  type Path = seq<string>

  const ROOT: Path := []
  const SENTINEL: Path := [".chown-complete"]

  /** `sentinel` is the sentinel file's text, if the file exists. */
  datatype Volume = Volume(owner: map<Path, string>, sentinel: Option<string>)

  // ---- the walk ----

  predicate ListedAsDir(n: Node) {
    !n.File?
  }

  /** The paths of one listing, of its directories or of its files. */
  function Names(base: Path, entries: seq<Node>, dirs: bool): seq<Path> {
    if entries == [] then []
    else (if ListedAsDir(entries[0]) == dirs then [base + [entries[0].name]] else []) + Names(base, entries[1..], dirs)
  }

  /** Every path the walk changes below `base`, in order: the subdirectories' own contents,
      then the directories, then the files. */
  function Walk(base: Path, entries: seq<Node>): seq<Path>
    decreases entries, 1
  {
    Subwalks(base, entries) + Names(base, entries, true) + Names(base, entries, false)
  }

  function Subwalks(base: Path, entries: seq<Node>): seq<Path>
    decreases entries, 0
  {
    if entries == [] then []
    else
      (if entries[0].Dir? then Walk(base + [entries[0].name], entries[0].children) else [])
        + Subwalks(base, entries[1..])
  }

  // ---- one boot ----

  /** What `str.strip` removes. */
  predicate IsSpace(c: char) {
    var n := c as int;
    || 0x09 <= n <= 0x0D || 0x1C <= n <= 0x20 || n == 0x85 || n == 0xA0 || n == 0x1680
    || 0x2000 <= n <= 0x200A || n == 0x2028 || n == 0x2029 || n == 0x202F || n == 0x205F || n == 0x3000
  }

  function LeftStrip(s: string): (r: string)
    ensures |r| <= |s|
  {
    if s != "" && IsSpace(s[0]) then LeftStrip(s[1..]) else s
  }

  function RightStrip(s: string): (r: string)
    ensures |r| <= |s|
  {
    if s != "" && IsSpace(s[|s| - 1]) then RightStrip(s[..|s| - 1]) else s
  }

  predicate SentinelMatches(v: Volume, stamp: string) {
    v.sentinel.Some? && RightStrip(LeftStrip(v.sentinel.value)) == stamp
  }

  predicate OwnedBy(v: Volume, p: Path, stamp: string) {
    p in v.owner && v.owner[p] == stamp
  }

  /** A boot that finds this skips the repair. */
  predicate RepairDone(v: Volume, stamp: string) {
    SentinelMatches(v, stamp) && OwnedBy(v, ROOT, stamp)
  }

  datatype Effect = Chown(path: Path) | Write(text: string)

  function Apply(v: Volume, e: Effect, stamp: string): Volume {
    match e
    case Chown(p) => v.(owner := v.owner[p := stamp])
    case Write(text) =>
      Volume(if v.sentinel.None? then v.owner[SENTINEL := "0:0"] else v.owner, Some(text))
  }

  function ApplyAll(v: Volume, effects: seq<Effect>, stamp: string): Volume {
    if effects == [] then v
    else Apply(ApplyAll(v, effects[..|effects| - 1], stamp), effects[|effects| - 1], stamp)
  }

  function Chowns(paths: seq<Path>): seq<Effect> {
    seq(|paths|, i requires 0 <= i < |paths| => Chown(paths[i]))
  }

  /** Writing a file truncates it and then grows it, so a crash can leave any prefix. */
  function Writes(stamp: string): seq<Effect> {
    seq(|stamp| + 1, i requires 0 <= i <= |stamp| => Write(stamp[..i]))
  }

  /** The walk, which also meets a sentinel left by an earlier boot. */
  function WalkEffects(v: Volume, entries: seq<Node>): seq<Effect> {
    Chowns(Walk(ROOT, entries)) + if v.sentinel.Some? then [Chown(SENTINEL)] else []
  }

  /** The sentinel after the walk, and the root last. */
  function Ending(stamp: string): seq<Effect> {
    Writes(stamp) + [Chown(SENTINEL), Chown(ROOT)]
  }

  function RepairEffects(v: Volume, entries: seq<Node>, stamp: string): seq<Effect> {
    WalkEffects(v, entries) + Ending(stamp)
  }

  /** One boot, cut off after `steps` effects: by a crash, or by a listing error in the walk. */
  function Booted(v: Volume, entries: seq<Node>, stamp: string, steps: nat): Volume {
    if RepairDone(v, stamp) then v
    else
      var effects := RepairEffects(v, entries, stamp);
      ApplyAll(v, effects[..MinInt(steps, |effects|)], stamp)
  }

  function BootedAll(v: Volume, entries: seq<Node>, stamp: string, boots: seq<nat>): Volume {
    if boots == [] then v
    else Booted(BootedAll(v, entries, stamp, boots[..|boots| - 1]), entries, stamp, boots[|boots| - 1])
  }

  class DataVolume {
    const entries: seq<Node>
    var owner: map<Path, string>
    var sentinel: Option<string>

    constructor (entries: seq<Node>, owner: map<Path, string>, sentinel: Option<string>)
      ensures this.entries == entries && Contents() == Volume(owner, sentinel)
    {
      this.entries, this.owner, this.sentinel := entries, owner, sentinel;
    }

    function Contents(): Volume
      reads this
    {
      Volume(owner, sentinel)
    }

    method WriteSentinel(text: string)
      modifies this
      ensures Contents() == Apply(old(Contents()), Write(text), "")
    {
      if sentinel.None? {
        owner := owner[SENTINEL := "0:0"];
      }
      sentinel := Some(text);
    }

    method Chown(p: Path, stamp: string)
      modifies this
      ensures Contents() == Apply(old(Contents()), Effect.Chown(p), stamp)
    {
      owner := owner[p := stamp];
    }

    /** The walk loop; `done` counts the effects that took place, at most `steps`. */
    method ChownWalk(walk: seq<Effect>, stamp: string, steps: nat, ghost rest: seq<Effect>) returns (done: nat)
      requires forall i :: 0 <= i < |walk| ==> walk[i].Chown?
      modifies this
      ensures done == MinInt(steps, |walk|)
      ensures Contents() == ApplyAll(old(Contents()), (walk + rest)[..done], stamp)
    {
      done := 0;
      while done < |walk| && done < steps
        invariant done <= |walk| && done <= steps
        invariant Contents() == ApplyAll(old(Contents()), (walk + rest)[..done], stamp)
      {
        NextEffect(old(Contents()), walk + rest, done, stamp);
        Chown(walk[done].path, stamp);
        done := done + 1;
      }
    }

    /** Writing the stamp, one more character at a time. */
    method WriteStamp(stamp: string, steps: nat, before: nat, ghost start: Volume, ghost effects: seq<Effect>)
      returns (done: nat)
      requires before <= steps && before + |stamp| < |effects|
      requires forall i :: 0 <= i <= |stamp| ==> effects[before + i] == Write(stamp[..i])
      requires Contents() == ApplyAll(start, effects[..before], stamp)
      modifies this
      ensures done == MinInt(steps, before + |stamp| + 1)
      ensures Contents() == ApplyAll(start, effects[..done], stamp)
    {
      done := before;
      while done <= before + |stamp| && done < steps
        invariant before <= done <= before + |stamp| + 1 && done <= steps
        invariant Contents() == ApplyAll(start, effects[..done], stamp)
      {
        assert effects[before + (done - before)] == Write(stamp[..done - before]);
        NextEffect(start, effects, done, stamp);
        WriteSentinel(stamp[..done - before]);
        done := done + 1;
      }
    }

    /** The sentinel's own owner, and the root last. */
    method Finish(stamp: string, steps: nat, before: nat, ghost start: Volume, ghost effects: seq<Effect>)
      requires before < steps && |effects| == before + 2
      requires effects[before] == Effect.Chown(SENTINEL) && effects[before + 1] == Effect.Chown(ROOT)
      requires Contents() == ApplyAll(start, effects[..before], stamp)
      modifies this
      ensures Contents() == ApplyAll(start, effects[..MinInt(steps, before + 2)], stamp)
    {
      NextEffect(start, effects, before, stamp);
      Chown(SENTINEL, stamp);
      if before + 1 < steps {
        NextEffect(start, effects, before + 1, stamp);
        Chown(ROOT, stamp);
      }
    }

    /** `_chown_tree`, cut off after `steps` effects. */
    method ChownTree(stamp: string, steps: nat)
      modifies this
      ensures Contents() == Booted(old(Contents()), entries, stamp, steps)
    {
      if RepairDone(Contents(), stamp) {
        return;
      }
      ghost var start := Contents();
      var walk := WalkEffects(Contents(), entries);
      ghost var effects := RepairEffects(start, entries, stamp);
      EffectsInOrder(start, entries, stamp);
      var done := ChownWalk(walk, stamp, steps, Ending(stamp));
      if done == |walk| {
        done := WriteStamp(stamp, steps, |walk|, start, effects);
        if done == |walk| + |stamp| + 1 && done < steps {
          Finish(stamp, steps, done, start, effects);
        }
      }
    }
  }

  lemma EffectsInOrder(v: Volume, entries: seq<Node>, stamp: string)
    ensures var n, effects := |WalkEffects(v, entries)|, RepairEffects(v, entries, stamp);
            && |effects| == n + |stamp| + 3
            && (forall i :: 0 <= i <= |stamp| ==> effects[n + i] == Write(stamp[..i]))
            && effects[n + |stamp| + 1] == Chown(SENTINEL) && effects[n + |stamp| + 2] == Chown(ROOT)
  {
  }

  lemma NextEffect(v: Volume, effects: seq<Effect>, done: nat, stamp: string)
    requires done < |effects|
    ensures ApplyAll(v, effects[..done + 1], stamp) == Apply(ApplyAll(v, effects[..done], stamp), effects[done], stamp)
  {
    assert effects[..done + 1][..done] == effects[..done];
  }
}
