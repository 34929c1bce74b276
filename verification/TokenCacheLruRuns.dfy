/** Over every run the ordered dictionary is the map with last-use times that its own log of
    hits, publications and invalidations builds. */
module TokenCacheLruRuns {
  import opened Common
  import opened TokenCache
  import opened TokenCacheLru
  import opened TokenCacheSystem
  import opened TokenCacheTheorems

  /** What one logged event does to the map. */
  ghost function Replay(cfg: Config, l: Lru<nat>, e: Event): Lru<nat> {
    match e
    case CacheHit(_, db, _, _) => if db in l.slots then Touch(l, db) else l
    case Publication(_, db, mint, mintedAt) => Put(l, cfg.maxEntries, db, mint, mintedAt)
    case Invalidation(db) => Drop(l, {db})
    case _ => l
  }

  ghost function LruOf(cfg: Config, log: seq<Event>): Lru<nat> {
    if log == [] then Lru(map[], 0)
    else Replay(cfg, LruOf(cfg, log[..|log| - 1]), log[|log| - 1])
  }

  lemma LruOfLast(cfg: Config, log: seq<Event>, e: Event)
    ensures LruOf(cfg, log + [e]) == Replay(cfg, LruOf(cfg, log), e)
  {
    assert (log + [e])[..|log|] == log;
  }

  predicate Idle(e: Event) {
    !e.CacheHit? && !e.Publication? && !e.Invalidation?
  }

  lemma {:induction false} IdleKeepsLru(cfg: Config, log: seq<Event>, events: seq<Event>)
    requires forall e :: e in events ==> Idle(e)
    ensures LruOf(cfg, log + events) == LruOf(cfg, log)
  {
    if events == [] {
      assert log + events == log;
    } else {
      var init, last := events[..|events| - 1], events[|events| - 1];
      IdleKeepsLru(cfg, log, init);
      SplitLast(events);
      ConcatAssoc(log, init, [last]);
      LruOfLast(cfg, log + init, last);
      assert Idle(last) by {
        assert last in events;
      }
    }
  }

  ghost predicate Replayed(cfg: Config, s: Sys) {
    Agrees(s.cache.entries, LruOf(cfg, s.log))
  }

  lemma IdleReplayed(cfg: Config, s: Sys, s': Sys, events: seq<Event>)
    requires Replayed(cfg, s) && s'.cache.entries == s.cache.entries && s'.log == s.log + events
    requires forall e :: e in events ==> Idle(e)
    ensures Replayed(cfg, s')
  {
    IdleKeepsLru(cfg, s.log, events);
  }

  lemma LockReplayed(cfg: Config, s: Sys, id: nat, now: real, mono: real)
    requires Replayed(cfg, s) && id in s.calls && s.calls[id].phase.AtTop?
    ensures Replayed(cfg, LockStep(cfg, s, id, now, mono))
  {
    var db, s' := s.calls[id].db, LockStep(cfg, s, id, now, mono);
    EnterRefinesTouch(cfg, s.cache, LruOf(cfg, s.log), db, now);
    match Enter(cfg, s.cache, db, now).1
    case Hit(mint) => LruOfLast(cfg, s.log, CacheHit(id, db, mint, now));
    case Claimed => IdleReplayed(cfg, s, s', [Claim(id, db)]);
    case Busy => BusyReplayed(cfg, s, id, mono);
  }

  lemma BusyReplayed(cfg: Config, s: Sys, id: nat, mono: real)
    requires Replayed(cfg, s) && id in s.calls && s.calls[id].phase.AtTop?
    ensures Replayed(cfg, BusyStep(cfg, s, id, mono))
  {
    var events := BusyEvents(cfg, s, id, mono);
    IdleReplayed(cfg, s, BusyStep(cfg, s, id, mono), events);
  }

  /** A call that meets another's mint leaves the cache alone and logs nothing about it. */
  lemma BusyEvents(cfg: Config, s: Sys, id: nat, mono: real) returns (events: seq<Event>)
    requires id in s.calls && s.calls[id].phase.AtTop?
    ensures BusyStep(cfg, s, id, mono).cache == s.cache && BusyStep(cfg, s, id, mono).log == s.log + events
    ensures forall e :: e in events ==> e.Block? || e.TimedOut?
  {
    var deadline := s.calls[id].phase.deadline;
    var until := if deadline.Some? then deadline.value else mono + cfg.waitTimeout;
    events := (if deadline.Some? then [] else [Block(id, mono)])
        + (if until - mono <= 0.0 then [TimedOut(id, mono)] else []);
  }

  lemma PublicationReplayed(cfg: Config, c: Cache<nat>, log: seq<Event>, id: nat, db: string, mint: nat, mintedAt: real)
    requires ValidConfig(cfg) && CacheOk(cfg, c) && Agrees(c.entries, LruOf(cfg, log)) && db !in c.flagged
    ensures Agrees(Publish(cfg, c, db, mint, mintedAt).0.entries,
                   LruOf(cfg, log + [Publication(id, db, mint, mintedAt)]))
  {
    PublishRefinesPut(cfg, c, LruOf(cfg, log), db, mint, mintedAt);
    LruOfLast(cfg, log, Publication(id, db, mint, mintedAt));
  }

  lemma MintReturnReplayed(cfg: Config, s: Sys, id: nat, mintedAt: real)
    requires ValidConfig(cfg) && CacheOk(cfg, s.cache) && Replayed(cfg, s)
    requires id in s.calls && s.calls[id].phase.Minting?
    ensures Replayed(cfg, MintReturnStep(cfg, s, id, mintedAt))
  {
    var db, mint := s.calls[id].db, s.calls[id].phase.mint;
    if db in s.cache.flagged {
      IdleReplayed(cfg, s, MintReturnStep(cfg, s, id, mintedAt), [Discard(id, db)]);
    } else {
      PublicationReplayed(cfg, s.cache, s.log, id, db, mint, mintedAt);
    }
  }

  lemma InvalidationDrops(cfg: Config, log: seq<Event>, db: string)
    ensures LruOf(cfg, log + [Invalidation(db)]) == Drop(LruOf(cfg, log), {db})
  {
    LruOfLast(cfg, log, Invalidation(db));
  }

  lemma InvalidationReplayed(cfg: Config, s: Sys, db: string)
    requires Replayed(cfg, s)
    ensures Replayed(cfg, Step(cfg, s, InvalidateDb(db)))
  {
    InvalidationDrops(cfg, s.log, db);
    InvalidateRefinesDrop(s.cache, LruOf(cfg, s.log), db);
  }

  lemma MintRaisesReplayed(cfg: Config, s: Sys, id: nat)
    requires Replayed(cfg, s) && id in s.calls && s.calls[id].phase.Minting?
    ensures Replayed(cfg, Step(cfg, s, MintRaises(id)))
  {
    IdleReplayed(cfg, s, Step(cfg, s, MintRaises(id)), [MintError(id, s.calls[id].db)]);
  }

  /** Beginning, waking and giving up. */
  lemma WaitingReplayed(cfg: Config, s: Sys, a: Action)
    requires Replayed(cfg, s) && (a.Begin? || a.Notified? || a.WaitExpires?)
    ensures Replayed(cfg, Step(cfg, s, a))
  {
    var s' := Step(cfg, s, a);
    if s'.log == s.log {
      IdleReplayed(cfg, s, s', []);
    } else {
      IdleReplayed(cfg, s, s', [TimedOut(a.call, a.mono)]);
    }
  }

  lemma StepReplayed(cfg: Config, s: Sys, a: Action)
    requires ValidConfig(cfg) && CacheOk(cfg, s.cache) && Replayed(cfg, s)
    ensures Replayed(cfg, Step(cfg, s, a))
  {
    match a
    case Lock(id, now, mono) =>
      if id in s.calls && s.calls[id].phase.AtTop? { LockReplayed(cfg, s, id, now, mono); }
    case MintReturns(id, mintedAt) =>
      if id in s.calls && s.calls[id].phase.Minting? { MintReturnReplayed(cfg, s, id, mintedAt); }
    case MintRaises(id) => if id in s.calls && s.calls[id].phase.Minting? { MintRaisesReplayed(cfg, s, id); }
    case InvalidateDb(db) => InvalidationReplayed(cfg, s, db);
    case _ => WaitingReplayed(cfg, s, a);
  }

  /** In every reachable state the dictionary holds what the map holds, in order of last use:
      touched by each hit, grown by each publication at the cost of its least recently used
      key, and stripped by each invalidation. */
  lemma {:induction false} RunIsLru(cfg: Config, actions: seq<Action>)
    requires ValidConfig(cfg)
    ensures Agrees(Run(cfg, actions).cache.entries, LruOf(cfg, Run(cfg, actions).log))
  {
    if actions != [] {
      RunIsLru(cfg, actions[..|actions| - 1]);
      RunInv(cfg, actions[..|actions| - 1]);
      StepReplayed(cfg, Run(cfg, actions[..|actions| - 1]), actions[|actions| - 1]);
    }
  }

  /** A hit serves the token the map holds at that moment. */
  lemma HitServesSlot(cfg: Config, actions: seq<Action>, id: nat, now: real, mono: real)
    requires ValidConfig(cfg)
    requires var s := Run(cfg, actions); id in s.calls && s.calls[id].phase.AtTop?
    ensures var s := Run(cfg, actions);
            var db, slots := s.calls[id].db, LruOf(cfg, s.log).slots;
            if db in slots && now - slots[db].mintedAt < cfg.ttl then
              Step(cfg, s, Lock(id, now, mono)).log == s.log + [CacheHit(id, db, slots[db].token, now)]
            else
              forall e :: e in Step(cfg, s, Lock(id, now, mono)).log[|s.log|..] ==> !e.CacheHit?
  {
    RunIsLru(cfg, actions);
    var s := Run(cfg, actions);
    EnterRefinesTouch(cfg, s.cache, LruOf(cfg, s.log), s.calls[id].db, now);
  }

  // ---- a miss makes progress ----

  ghost predicate FreshSlot(cfg: Config, s: Sys, db: string, now: real) {
    var slots := LruOf(cfg, s.log).slots;
    db in slots && now - slots[db].mintedAt < cfg.ttl
  }

  /** A miss with no mint of its database in flight starts one: expired entries included. */
  lemma MissClaimsTheMint(cfg: Config, actions: seq<Action>, id: nat, now: real, mono: real)
    requires ValidConfig(cfg)
    requires var s := Run(cfg, actions);
             && id in s.calls && s.calls[id].phase.AtTop? && !FreshSlot(cfg, s, s.calls[id].db, now)
             && forall c :: !InFlight(s, c, s.calls[id].db)
    ensures var s := Run(cfg, actions);
            var s', db := Step(cfg, s, Lock(id, now, mono)), s.calls[id].db;
            s'.log == s.log + [Claim(id, db)] && InFlight(s', id, db)
  {
    RunIsLru(cfg, actions);
    OneMintPerDatabase(cfg, actions);
    var s := Run(cfg, actions);
    EnterRefinesTouch(cfg, s.cache, LruOf(cfg, s.log), s.calls[id].db, now);
  }

  /** When a caller that meets somebody else's mint gives up: a full wait timeout after it
      first met one since it last held a mint itself. */
  ghost function GivesUpAt(cfg: Config, s: Sys, id: nat, mono: real): real {
    var since := TallyOf(s.log, id).since;
    cfg.waitTimeout + if since.Some? then since.value else mono
  }

  /** A miss with a mint in flight starts none: it waits for that mint until its deadline,
      and gives up exactly when the deadline has passed. */
  lemma MissFollowsTheMint(cfg: Config, actions: seq<Action>, id: nat, now: real, mono: real, owner: nat)
    requires ValidConfig(cfg)
    requires var s := Run(cfg, actions);
             && id in s.calls && s.calls[id].phase.AtTop? && !FreshSlot(cfg, s, s.calls[id].db, now)
             && InFlight(s, owner, s.calls[id].db)
    ensures var s := Run(cfg, actions);
            var s', until := Step(cfg, s, Lock(id, now, mono)), GivesUpAt(cfg, s, id, mono);
            && s'.cache == s.cache
            && (until > mono ==> s'.calls[id].phase == Waiting(until) && TimedOut(id, mono) !in s'.log[|s.log|..])
            && (until <= mono ==> s'.calls[id].phase == Finished && s'.log == s.log + [TimedOut(id, mono)])
  {
    RunIsLru(cfg, actions);
    OneMintPerDatabase(cfg, actions);
    RunTallies(cfg, actions);
    var s := Run(cfg, actions);
    assert TallyOk(cfg, s, id);
    EnterRefinesTouch(cfg, s.cache, LruOf(cfg, s.log), s.calls[id].db, now);
  }

  /** The map slot that a publication leaves. */
  ghost predicate HoldsSlot(l: Lru<nat>, db: string, mint: nat, mintedAt: real) {
    db in l.slots && l.slots[db].token == mint && l.slots[db].mintedAt == mintedAt
  }

  lemma PutHolds(l: Lru<nat>, max: nat, db: string, mint: nat, mintedAt: real)
    requires db in Put(l, max, db, mint, mintedAt).slots
    ensures HoldsSlot(Put(l, max, db, mint, mintedAt), db, mint, mintedAt)
  {
  }

  lemma FreshMintPublishes(cfg: Config, s: Sys, id: nat, mintedAt: real)
    requires ValidConfig(cfg) && Replayed(cfg, s) && |s.cache.entries| <= cfg.maxEntries
    requires id in s.calls && s.calls[id].phase.Minting? && s.calls[id].db !in s.cache.flagged
    ensures var db, mint, s' := s.calls[id].db, s.calls[id].phase.mint, MintReturnStep(cfg, s, id, mintedAt);
            && s'.log == s.log + [Publication(id, db, mint, mintedAt)]
            && HoldsSlot(LruOf(cfg, s'.log), db, mint, mintedAt)
            && id in s'.calls && s'.calls[id].phase == Finished
            && s'.cache.minting == s.cache.minting - {db} && s'.cache.flagged == s.cache.flagged - {db}
  {
    var db, mint, l := s.calls[id].db, s.calls[id].phase.mint, LruOf(cfg, s.log);
    assert db in Put(l, cfg.maxEntries, db, mint, mintedAt).slots by {
      PublishRefinesPut(cfg, s.cache, l, db, mint, mintedAt);
    }
    PutHolds(l, cfg.maxEntries, db, mint, mintedAt);
    LruOfLast(cfg, s.log, Publication(id, db, mint, mintedAt));
  }

  lemma StaleMintStartsOver(cfg: Config, s: Sys, id: nat, mintedAt: real)
    requires id in s.calls && s.calls[id].phase.Minting? && s.calls[id].db in s.cache.flagged
    ensures var db, s' := s.calls[id].db, MintReturnStep(cfg, s, id, mintedAt);
            && s'.log == s.log + [Discard(id, db)] && s'.cache.entries == s.cache.entries
            && id in s'.calls && s'.calls[id].phase == AtTop(None)
            && s'.cache.minting == s.cache.minting - {db} && s'.cache.flagged == s.cache.flagged - {db}
  {
  }

  lemma MintEndsFrom(cfg: Config, s: Sys, id: nat, mintedAt: real)
    requires ValidConfig(cfg) && Replayed(cfg, s) && |s.cache.entries| <= cfg.maxEntries
    requires id in s.calls && s.calls[id].phase.Minting?
    ensures var db, mint, s' := s.calls[id].db, s.calls[id].phase.mint, Step(cfg, s, MintReturns(id, mintedAt));
            && id in s'.calls && db !in s'.cache.minting && db !in s'.cache.flagged
            && if db !in s.cache.flagged then
                 && s'.log == s.log + [Publication(id, db, mint, mintedAt)] && s'.calls[id].phase == Finished
                 && HoldsSlot(LruOf(cfg, s'.log), db, mint, mintedAt)
               else
                 && s'.log == s.log + [Discard(id, db)] && s'.calls[id].phase == AtTop(None)
                 && s'.cache.entries == s.cache.entries
  {
    if s.calls[id].db !in s.cache.flagged {
      FreshMintPublishes(cfg, s, id, mintedAt);
    } else {
      StaleMintStartsOver(cfg, s, id, mintedAt);
    }
  }

  lemma MintInFlight(cfg: Config, actions: seq<Action>, id: nat)
    requires ValidConfig(cfg)
    requires var s := Run(cfg, actions); id in s.calls && s.calls[id].phase.Minting?
    ensures var s := Run(cfg, actions);
            && Replayed(cfg, s) && |s.cache.entries| <= cfg.maxEntries
            && (s.calls[id].db in s.cache.flagged <==>
                !Untouched(s.log, s.calls[id].db, s.calls[id].phase.mint, |s.log|))
  {
    EpochsAreCurrent(cfg, actions);
    OneMintPerDatabase(cfg, actions);
    RunIsLru(cfg, actions);
    assert InFlight(Run(cfg, actions), id, Run(cfg, actions).calls[id].db);
  }

  /** A mint that returns serves its own token exactly when no invalidation of its database
      followed its claim, and the map then holds it; a stale one is discarded and the call
      starts over with no deadline.  Either way the database can be minted again. */
  lemma MintEnds(cfg: Config, actions: seq<Action>, id: nat, mintedAt: real)
    requires ValidConfig(cfg)
    requires var s := Run(cfg, actions); id in s.calls && s.calls[id].phase.Minting?
    ensures var s := Run(cfg, actions);
            var db, mint, s' := s.calls[id].db, s.calls[id].phase.mint, Step(cfg, s, MintReturns(id, mintedAt));
            && id in s'.calls && db !in s'.cache.minting && db !in s'.cache.flagged
            && if Untouched(s.log, db, mint, |s.log|) then
                 && s'.log == s.log + [Publication(id, db, mint, mintedAt)] && s'.calls[id].phase == Finished
                 && HoldsSlot(LruOf(cfg, s'.log), db, mint, mintedAt)
               else
                 && s'.log == s.log + [Discard(id, db)] && s'.calls[id].phase == AtTop(None)
                 && s'.cache.entries == s.cache.entries
  {
    MintInFlight(cfg, actions, id);
    MintEndsFrom(cfg, Run(cfg, actions), id, mintedAt);
  }

  /** A follower that is woken looks again under its old deadline; one whose deadline passes
      gives up, and not before. */
  lemma FollowersMoveOn(cfg: Config, s: Sys, id: nat, mono: real)
    requires id in s.calls && s.calls[id].phase.Waiting?
    ensures var until := s.calls[id].phase.until;
            && Step(cfg, s, Notified(id)) == s.(calls := s.calls[id := s.calls[id].(phase := AtTop(Some(until)))])
            && Step(cfg, s, WaitExpires(id, mono)) ==
               if mono >= until then Sys(s.cache, s.calls[id := s.calls[id].(phase := Finished)],
                                         s.log + [TimedOut(id, mono)])
               else s
  {
    assert s.log + [] == s.log;
  }

  /** A failed mint ends its own call with an error, and the database can be minted again. */
  lemma FailedMintFreesTheDatabase(cfg: Config, s: Sys, id: nat)
    requires id in s.calls && s.calls[id].phase.Minting?
    ensures var db, s' := s.calls[id].db, Step(cfg, s, MintRaises(id));
            && s'.log == s.log + [MintError(id, db)] && id in s'.calls && s'.calls[id].phase == Finished
            && db !in s'.cache.minting && db !in s'.cache.flagged && s'.cache.entries == s.cache.entries
  {
  }
}
