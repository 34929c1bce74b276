/** What holds of every run of `get_token` and `invalidate`. */
module TokenCacheTheorems {
  import opened Common
  import opened TokenCache
  import opened TokenCacheSystem

  ghost predicate Serves(e: Event, db: string) {
    (e.Publication? || e.CacheHit?) && e.db == db
  }

  lemma MintPostdates(cfg: Config, log: seq<Event>, i: nat, j: nat, db: string)
    requires i < j < |log| && log[i] == Invalidation(db) && Serves(log[j], db) && ServedOk(cfg, log, j)
    ensures i < log[j].mint < j && log[log[j].mint].Claim? && log[log[j].mint].db == db
  {
  }

  /** A token served after `invalidate(db)` comes from a mint claimed after it. */
  lemma {:induction false} ServedTokenPostdatesInvalidate(cfg: Config, actions: seq<Action>, i: nat, j: nat, db: string)
    requires ValidConfig(cfg)
    requires i < j < |Run(cfg, actions).log|
    requires Run(cfg, actions).log[i] == Invalidation(db)
    requires Serves(Run(cfg, actions).log[j], db)
    ensures var log := Run(cfg, actions).log;
            i < log[j].mint < j && log[log[j].mint].Claim? && log[log[j].mint].db == db
  {
    RunInv(cfg, actions);
    MintPostdates(cfg, Run(cfg, actions).log, i, j, db);
  }

  /** A hit serves a token the cache published less than `ttl` ago. */
  lemma HitIsFresh(cfg: Config, actions: seq<Action>, j: nat)
    requires ValidConfig(cfg)
    requires j < |Run(cfg, actions).log| && Run(cfg, actions).log[j].CacheHit?
    ensures var log := Run(cfg, actions).log;
            exists p :: 0 <= p < j && log[p].Publication?
              && log[p].db == log[j].db && log[p].mint == log[j].mint && log[j].now - log[p].mintedAt < cfg.ttl
  {
    RunInv(cfg, actions);
    var log := Run(cfg, actions).log;
    assert ServedOk(cfg, log, j);
    var at :| Published(log, log[j].db, log[j].mint, at, j) && log[j].now - at < cfg.ttl;
    var p :| 0 <= p < j && IsPublication(log[p], log[j].db, log[j].mint, at);
  }

  /** In every reachable state at most one mint per database is in flight, the
      registered databases are exactly those with one, and the cache is bounded. */
  lemma OneMintPerDatabase(cfg: Config, actions: seq<Action>)
    requires ValidConfig(cfg)
    ensures var s := Run(cfg, actions);
            && (forall db, c, d :: InFlight(s, c, db) && InFlight(s, d, db) ==> c == d)
            && (forall db :: db in s.cache.minting <==> exists c :: InFlight(s, c, db))
            && |s.cache.entries| <= cfg.maxEntries && DistinctKeys(s.cache.entries)
  {
    RunInv(cfg, actions);
    var s := Run(cfg, actions);
    forall db, c | InFlight(s, c, db) ensures db in s.cache.minting {
      assert CallOk(s.log, s.cache, c, s.calls[c]);
    }
  }

  /** An in-flight mint is flagged exactly when an invalidation followed its claim;
      a cached entry never has one after its claim. */
  lemma {:induction false} EpochsAreCurrent(cfg: Config, actions: seq<Action>)
    requires ValidConfig(cfg)
    ensures var s := Run(cfg, actions);
            && (forall i :: 0 <= i < |s.cache.entries| ==>
                  Untouched(s.log, s.cache.entries[i].db, s.cache.entries[i].token, |s.log|))
            && (forall c, db :: InFlight(s, c, db) ==>
                  (db in s.cache.flagged <==> !Untouched(s.log, db, s.calls[c].phase.mint, |s.log|)))
  {
    RunInv(cfg, actions);
    var s := Run(cfg, actions);
    forall c, db | InFlight(s, c, db)
      ensures db in s.cache.flagged <==> !Untouched(s.log, db, s.calls[c].phase.mint, |s.log|)
    {
      assert CallOk(s.log, s.cache, c, s.calls[c]);
    }
    forall i | 0 <= i < |s.cache.entries|
      ensures Untouched(s.log, s.cache.entries[i].db, s.cache.entries[i].token, |s.log|)
    {
      assert EntryOk(s.log, s.cache.entries[i]);
    }
  }

  // ---- how much one call may do ----

  /** Read off the log: how many mints a call claimed, how many invalidations of its
      database landed while one of its mints was open, which mint is open, and since
      when it has been following somebody else's mint. */
  datatype Tally = Tally(claims: nat, landed: nat, open: Option<string>, since: Option<real>)

  ghost function Count(t: Tally, e: Event, id: nat): Tally {
    match e
    case Claim(c, db) => if c == id then Tally(t.claims + 1, t.landed, Some(db), None) else t
    case Publication(c, _, _, _) => if c == id then t.(open := None) else t
    case Discard(c, _) => if c == id then t.(open := None) else t
    case MintError(c, _) => if c == id then t.(open := None) else t
    case Block(c, at) => if c == id && t.since.None? then t.(since := Some(at)) else t
    case Invalidation(db) => if t.open == Some(db) then t.(landed := t.landed + 1) else t
    case CacheHit(_, _, _, _) => t
    case TimedOut(_, _) => t
  }

  ghost function TallyOf(log: seq<Event>, id: nat): Tally {
    if log == [] then Tally(0, 0, None, None)
    else Count(TallyOf(log[..|log| - 1], id), log[|log| - 1], id)
  }

  lemma TallyAppend(log: seq<Event>, e: Event, id: nat)
    ensures TallyOf(log + [e], id) == Count(TallyOf(log, id), e, id)
  {
  }

  ghost predicate WaitMatches(cfg: Config, phase: Phase, since: Option<real>) {
    match phase
    case AtTop(deadline) =>
      deadline == if since.Some? then Some(since.value + cfg.waitTimeout) else None
    case Waiting(until) => since.Some? && until == since.value + cfg.waitTimeout
    case Minting(_) => since.None?
    case Finished => true
  }

  ghost predicate TallyOk(cfg: Config, s: Sys, id: nat) {
    var t := TallyOf(s.log, id);
    if id !in s.calls then t == Tally(0, 0, None, None)
    else
      var call := s.calls[id];
      && t.open == (if call.phase.Minting? then Some(call.db) else None)
      && WaitMatches(cfg, call.phase, t.since)
      && t.claims <= t.landed + 1
      && (call.phase.AtTop? || call.phase.Waiting? || (call.phase.Minting? && call.db in s.cache.flagged)
          ==> t.claims <= t.landed)
  }

  /** A follower that gave up had followed for the whole wait timeout. */
  ghost predicate TimeoutOk(cfg: Config, log: seq<Event>, j: nat)
    requires j < |log|
  {
    log[j].TimedOut? ==>
      var since := TallyOf(log[..j], log[j].call).since;
      since.Some? && log[j].at - since.value >= cfg.waitTimeout
  }

  ghost predicate TalliesOk(cfg: Config, s: Sys) {
    && (forall id :: TallyOk(cfg, s, id))
    && (forall j :: 0 <= j < |s.log| ==> TimeoutOk(cfg, s.log, j))
  }

  lemma TimeoutsGrow(cfg: Config, log: seq<Event>, e: Event)
    requires forall j :: 0 <= j < |log| ==> TimeoutOk(cfg, log, j)
    requires e.TimedOut? ==> var since := TallyOf(log, e.call).since;
                             since.Some? && e.at - since.value >= cfg.waitTimeout
    ensures forall j :: 0 <= j < |log + [e]| ==> TimeoutOk(cfg, log + [e], j)
  {
    forall j | 0 <= j < |log + [e]| ensures TimeoutOk(cfg, log + [e], j) {
      assert (log + [e])[..j] == log[..j];
      assert log[..|log|] == log;
      if j < |log| {
        assert TimeoutOk(cfg, log, j);
      }
    }
  }

  /** One event by one call: every other call's tally stays as it was. */
  lemma MovedTallies(cfg: Config, s: Sys, id: nat, phase: Phase, c: Cache<nat>, e: Event)
    requires TalliesOk(cfg, s) && id in s.calls && c.flagged <= s.cache.flagged
    requires !e.Invalidation? && e.call == id
    requires e.TimedOut? ==> s.calls[id].phase != Finished
                             && var since := TallyOf(s.log, id).since;
                                since.Some? && e.at - since.value >= cfg.waitTimeout
    requires TallyOk(cfg, Moved(s, id, phase, c, [e]), id)
    ensures TalliesOk(cfg, Moved(s, id, phase, c, [e]))
  {
    var s' := Moved(s, id, phase, c, [e]);
    forall d ensures TallyOk(cfg, s', d) {
      if d != id {
        assert TallyOk(cfg, s, d);
        TallyAppend(s.log, e, d);
      }
    }
    TimeoutsGrow(cfg, s.log, e);
  }

  lemma SilentTallies(cfg: Config, s: Sys, id: nat, phase: Phase)
    requires TalliesOk(cfg, s) && id in s.calls && !s.calls[id].phase.Minting? && !phase.Minting?
    requires s.calls[id].phase.AtTop? || s.calls[id].phase.Waiting?
    requires WaitMatches(cfg, phase, TallyOf(s.log, id).since)
    ensures TalliesOk(cfg, Moved(s, id, phase, s.cache, []))
  {
    var s' := Moved(s, id, phase, s.cache, []);
    assert s'.log == s.log;
    forall d ensures TallyOk(cfg, s', d) {
      assert TallyOk(cfg, s, d);
    }
  }

  lemma BusyTallies(cfg: Config, s: Sys, id: nat, mono: real)
    requires ValidConfig(cfg) && TalliesOk(cfg, s) && id in s.calls && s.calls[id].phase.AtTop?
    ensures TalliesOk(cfg, BusyStep(cfg, s, id, mono))
  {
    var s' := BusyStep(cfg, s, id, mono);
    assert TallyOk(cfg, s, id);
    if s.calls[id].phase.deadline.None? {
      TallyAppend(s.log, Block(id, mono), id);
      MovedTallies(cfg, s, id, s'.calls[id].phase, s.cache, Block(id, mono));
    } else if s'.calls[id].phase.Finished? {
      TallyAppend(s.log, TimedOut(id, mono), id);
      assert s'.log == s.log + [TimedOut(id, mono)];
      MovedTallies(cfg, s, id, Finished, s.cache, TimedOut(id, mono));
    } else {
      SilentTallies(cfg, s, id, s'.calls[id].phase);
    }
  }

  lemma LockTallies(cfg: Config, s: Sys, id: nat, now: real, mono: real)
    requires ValidConfig(cfg) && Inv(cfg, s) && TalliesOk(cfg, s) && id in s.calls && s.calls[id].phase.AtTop?
    ensures TalliesOk(cfg, LockStep(cfg, s, id, now, mono))
  {
    var db := s.calls[id].db;
    assert TallyOk(cfg, s, id);
    var (c, r) := Enter(cfg, s.cache, db, now);
    match r
    case Hit(mint) =>
      TallyAppend(s.log, CacheHit(id, db, mint, now), id);
      MovedTallies(cfg, s, id, Finished, c, CacheHit(id, db, mint, now));
    case Claimed =>
      TallyAppend(s.log, Claim(id, db), id);
      MovedTallies(cfg, s, id, Minting(|s.log|), c, Claim(id, db));
    case Busy => BusyTallies(cfg, s, id, mono);
  }

  lemma MintOverTallies(cfg: Config, s: Sys, id: nat, phase: Phase, c: Cache<nat>, e: Event)
    requires TalliesOk(cfg, s) && id in s.calls && s.calls[id].phase.Minting? && c.flagged <= s.cache.flagged
    requires (e.Publication? || e.Discard? || e.MintError?) && e.call == id
    requires phase == if e.Discard? then AtTop(None) else Finished
    requires e.Discard? ==> s.calls[id].db in s.cache.flagged
    ensures TalliesOk(cfg, Moved(s, id, phase, c, [e]))
  {
    assert TallyOk(cfg, s, id);
    TallyAppend(s.log, e, id);
    MovedTallies(cfg, s, id, phase, c, e);
  }

  lemma InvalidateTallies(cfg: Config, s: Sys, db: string)
    requires TalliesOk(cfg, s)
    ensures TalliesOk(cfg, Sys(Invalidated(s.cache, db), s.calls, s.log + [Invalidation(db)]))
  {
    var s' := Sys(Invalidated(s.cache, db), s.calls, s.log + [Invalidation(db)]);
    forall d ensures TallyOk(cfg, s', d) {
      assert TallyOk(cfg, s, d);
      TallyAppend(s.log, Invalidation(db), d);
    }
    TimeoutsGrow(cfg, s.log, Invalidation(db));
  }

  lemma StepTallies(cfg: Config, s: Sys, a: Action)
    requires ValidConfig(cfg) && Inv(cfg, s) && TalliesOk(cfg, s)
    ensures TalliesOk(cfg, Step(cfg, s, a))
  {
    match a
    case Begin(id, db) =>
      var s' := Step(cfg, s, a);
      forall d ensures TallyOk(cfg, s', d) {
        assert TallyOk(cfg, s, d);
      }
    case Lock(id, now, mono) =>
      if id in s.calls && s.calls[id].phase.AtTop? { LockTallies(cfg, s, id, now, mono); }
    case Notified(id) =>
      if id in s.calls && s.calls[id].phase.Waiting? {
        assert TallyOk(cfg, s, id);
        SilentTallies(cfg, s, id, AtTop(Some(s.calls[id].phase.until)));
      }
    case WaitExpires(id, mono) =>
      if id in s.calls && s.calls[id].phase.Waiting? && mono >= s.calls[id].phase.until {
        assert TallyOk(cfg, s, id);
        TallyAppend(s.log, TimedOut(id, mono), id);
        MovedTallies(cfg, s, id, Finished, s.cache, TimedOut(id, mono));
      }
    case MintReturns(id, mintedAt) =>
      if id in s.calls && s.calls[id].phase.Minting? {
        var db, mint := s.calls[id].db, s.calls[id].phase.mint;
        var c := Publish(cfg, s.cache, db, mint, mintedAt).0;
        if db in s.cache.flagged {
          MintOverTallies(cfg, s, id, AtTop(None), c, Discard(id, db));
        } else {
          MintOverTallies(cfg, s, id, Finished, c, Publication(id, db, mint, mintedAt));
        }
      }
    case MintRaises(id) =>
      if id in s.calls && s.calls[id].phase.Minting? {
        MintOverTallies(cfg, s, id, Finished, MintFailed(s.cache, s.calls[id].db), MintError(id, s.calls[id].db));
      }
    case InvalidateDb(db) => InvalidateTallies(cfg, s, db);
  }

  lemma {:induction false} RunTallies(cfg: Config, actions: seq<Action>)
    requires ValidConfig(cfg)
    ensures TalliesOk(cfg, Run(cfg, actions))
  {
    if actions != [] {
      RunInv(cfg, actions[..|actions| - 1]);
      RunTallies(cfg, actions[..|actions| - 1]);
      StepTallies(cfg, Run(cfg, actions[..|actions| - 1]), actions[|actions| - 1]);
    }
  }

  /** A call mints at most once more than invalidations land in its own mints. */
  lemma {:induction false} MintsAreBounded(cfg: Config, actions: seq<Action>, id: nat)
    requires ValidConfig(cfg)
    ensures var t := TallyOf(Run(cfg, actions).log, id); t.claims <= 1 + t.landed
  {
    RunTallies(cfg, actions);
    assert TallyOk(cfg, Run(cfg, actions), id);
  }

  /** A call gives up only after following other calls' mints for the whole wait timeout. */
  lemma {:induction false} TimeoutsWaitedInFull(cfg: Config, actions: seq<Action>, j: nat)
    requires ValidConfig(cfg)
    requires j < |Run(cfg, actions).log| && Run(cfg, actions).log[j].TimedOut?
    ensures var log := Run(cfg, actions).log;
            var since := TallyOf(log[..j], log[j].call).since;
            since.Some? && log[j].at - since.value >= cfg.waitTimeout
  {
    RunTallies(cfg, actions);
    assert TimeoutOk(cfg, Run(cfg, actions).log, j);
  }
}
