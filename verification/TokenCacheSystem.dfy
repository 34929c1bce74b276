/** Every interleaving of `get_token` calls and `invalidate` calls.

    A run is a sequence of actions; each action is one atomic block of one call, or
    one `invalidate`.  The log records what happened.  Tokens are named by the log
    position at which their mint was claimed, so a token says which mint made it;
    the network call itself starts after that position. */
module TokenCacheSystem {
  import opened Common
  import opened TokenCache

  datatype Event =
    | Claim(call: nat, db: string)
    | Publication(call: nat, db: string, mint: nat, mintedAt: real)
    | CacheHit(call: nat, db: string, mint: nat, now: real)
    | Discard(call: nat, db: string)
    | MintError(call: nat, db: string)
    | Block(call: nat, at: real)
    | TimedOut(call: nat, at: real)
    | Invalidation(db: string)

  /** Where a call stands.  `deadline` is the follower's wait deadline, if it has one. */
  datatype Phase = AtTop(deadline: Option<real>) | Waiting(until: real) | Minting(mint: nat) | Finished
  datatype Call = Call(db: string, phase: Phase)
  datatype Sys = Sys(cache: Cache<nat>, calls: map<nat, Call>, log: seq<Event>)

  datatype Action =
    | Begin(call: nat, db: string)
    | Lock(call: nat, now: real, mono: real)
    | Notified(call: nat)
    | WaitExpires(call: nat, mono: real)
    | MintReturns(call: nat, mintedAt: real)
    | MintRaises(call: nat)
    | InvalidateDb(db: string)

  function Init(): Sys {
    Sys(Empty(), map[], [])
  }

  function Moved(s: Sys, call: nat, phase: Phase, cache: Cache<nat>, events: seq<Event>): Sys
    requires call in s.calls
  {
    Sys(cache, s.calls[call := s.calls[call].(phase := phase)], s.log + events)
  }

  /** A call that finds the mint of its database in flight waits, up to one deadline. */
  function BusyStep(cfg: Config, s: Sys, call: nat, mono: real): Sys
    requires call in s.calls && s.calls[call].phase.AtTop?
  {
    var deadline := s.calls[call].phase.deadline;
    var until := if deadline.Some? then deadline.value else mono + cfg.waitTimeout;
    var first := if deadline.Some? then [] else [Block(call, mono)];
    if until - mono <= 0.0 then Moved(s, call, Finished, s.cache, first + [TimedOut(call, mono)])
    else Moved(s, call, Waiting(until), s.cache, first)
  }

  /** One block of one call: the top of the loop, under the lock. */
  function LockStep(cfg: Config, s: Sys, call: nat, now: real, mono: real): Sys
    requires call in s.calls && s.calls[call].phase.AtTop?
  {
    var db := s.calls[call].db;
    var (cache, r) := Enter(cfg, s.cache, db, now);
    match r
    case Hit(mint) => Moved(s, call, Finished, cache, [CacheHit(call, db, mint, now)])
    case Claimed => Moved(s, call, Minting(|s.log|), cache, [Claim(call, db)])
    case Busy => BusyStep(cfg, s, call, mono)
  }

  function MintReturnStep(cfg: Config, s: Sys, call: nat, mintedAt: real): Sys
    requires call in s.calls && s.calls[call].phase.Minting?
  {
    var db, mint := s.calls[call].db, s.calls[call].phase.mint;
    var (cache, served) := Publish(cfg, s.cache, db, mint, mintedAt);
    if served then Moved(s, call, Finished, cache, [Publication(call, db, mint, mintedAt)])
    else Moved(s, call, AtTop(None), cache, [Discard(call, db)])
  }

  /** An action that is not enabled changes nothing. */
  function Step(cfg: Config, s: Sys, a: Action): Sys {
    match a
    case Begin(call, db) =>
      if call in s.calls then s else s.(calls := s.calls[call := Call(db, AtTop(None))])
    case Lock(call, now, mono) =>
      if call in s.calls && s.calls[call].phase.AtTop? then LockStep(cfg, s, call, now, mono) else s
    case Notified(call) =>
      if call in s.calls && s.calls[call].phase.Waiting?
      then Moved(s, call, AtTop(Some(s.calls[call].phase.until)), s.cache, []) else s
    case WaitExpires(call, mono) =>
      if call in s.calls && s.calls[call].phase.Waiting? && mono >= s.calls[call].phase.until
      then Moved(s, call, Finished, s.cache, [TimedOut(call, mono)]) else s
    case MintReturns(call, mintedAt) =>
      if call in s.calls && s.calls[call].phase.Minting? then MintReturnStep(cfg, s, call, mintedAt) else s
    case MintRaises(call) =>
      if call in s.calls && s.calls[call].phase.Minting?
      then Moved(s, call, Finished, MintFailed(s.cache, s.calls[call].db), [MintError(call, s.calls[call].db)])
      else s
    case InvalidateDb(db) => Sys(Invalidated(s.cache, db), s.calls, s.log + [Invalidation(db)])
  }

  function Run(cfg: Config, actions: seq<Action>): Sys {
    if actions == [] then Init()
    else Step(cfg, Run(cfg, actions[..|actions| - 1]), actions[|actions| - 1])
  }

  // ---- what a run keeps ----

  ghost predicate Untouched(log: seq<Event>, db: string, from: nat, to: nat) {
    forall k :: from < k < to && k < |log| ==> log[k] != Invalidation(db)
  }

  /** Position `mint` is the claim of a mint for `db`. */
  ghost predicate IsClaim(log: seq<Event>, mint: nat, db: string) {
    mint < |log| && log[mint].Claim? && log[mint].db == db
  }

  ghost predicate Published(log: seq<Event>, db: string, mint: nat, mintedAt: real, before: nat) {
    exists p :: 0 <= p < before && p < |log| && IsPublication(log[p], db, mint, mintedAt)
  }

  ghost predicate IsPublication(e: Event, db: string, mint: nat, mintedAt: real) {
    e.Publication? && e.db == db && e.mint == mint && e.mintedAt == mintedAt
  }

  /** A cached entry was published by a mint that no invalidation has followed. */
  ghost predicate EntryOk(log: seq<Event>, e: Entry<nat>) {
    && IsClaim(log, e.token, e.db)
    && Untouched(log, e.db, e.token, |log|)
    && Published(log, e.db, e.token, e.mintedAt, |log|)
  }

  ghost predicate EntriesOk(log: seq<Event>, es: seq<Entry<nat>>) {
    forall i :: 0 <= i < |es| ==> EntryOk(log, es[i])
  }

  /** A mint in flight is registered, and is flagged exactly when an invalidation followed its claim. */
  ghost predicate CallOk(log: seq<Event>, c: Cache<nat>, id: nat, call: Call) {
    call.phase.Minting? ==>
      && call.phase.mint < |log| && log[call.phase.mint] == Claim(id, call.db)
      && call.db in c.minting
      && (call.db in c.flagged <==> !Untouched(log, call.db, call.phase.mint, |log|))
  }

  ghost predicate CallsOk(s: Sys) {
    forall id :: id in s.calls ==> CallOk(s.log, s.cache, id, s.calls[id])
  }

  /** What the log says of a served token. */
  ghost predicate ServedOk(cfg: Config, log: seq<Event>, j: nat)
    requires j < |log|
  {
    && (log[j].Publication? || log[j].CacheHit? ==>
          && log[j].mint < j
          && IsClaim(log, log[j].mint, log[j].db)
          && Untouched(log, log[j].db, log[j].mint, j))
    && (log[j].CacheHit? ==> exists at ::
          Published(log, log[j].db, log[j].mint, at, j) && log[j].now - at < cfg.ttl)
    && (log[j].Publication? ==> log[log[j].mint] == Claim(log[j].call, log[j].db))
  }

  ghost predicate LogOk(cfg: Config, log: seq<Event>) {
    forall j :: 0 <= j < |log| ==> ServedOk(cfg, log, j)
  }

  ghost predicate InFlight(s: Sys, id: nat, db: string) {
    id in s.calls && s.calls[id].db == db && s.calls[id].phase.Minting?
  }

  /** The registered databases are those with a mint in flight, one each. */
  ghost predicate SingleFlight(s: Sys) {
    && (forall db :: db in s.cache.minting ==> exists id :: InFlight(s, id, db))
    && (forall db, c, d :: InFlight(s, c, db) && InFlight(s, d, db) ==> c == d)
  }

  ghost predicate Inv(cfg: Config, s: Sys) {
    CacheOk(cfg, s.cache) && EntriesOk(s.log, s.cache.entries) && CallsOk(s) && SingleFlight(s) && LogOk(cfg, s.log)
  }

  // ---- growing the log ----

  lemma UntouchedGrows(log: seq<Event>, events: seq<Event>, db: string, from: nat)
    requires from < |log| && Invalidation(db) !in events
    ensures Untouched(log + events, db, from, |log + events|) <==> Untouched(log, db, from, |log|)
  {
    if !Untouched(log, db, from, |log|) {
      var k :| from < k < |log| && log[k] == Invalidation(db);
      assert (log + events)[k] == log[k];
    }
  }

  lemma EntryGrows(log: seq<Event>, events: seq<Event>, e: Entry<nat>)
    requires EntryOk(log, e) && Invalidation(e.db) !in events
    ensures EntryOk(log + events, e)
  {
    UntouchedGrows(log, events, e.db, e.token);
    var p :| 0 <= p < |log| && IsPublication(log[p], e.db, e.token, e.mintedAt);
    assert (log + events)[p] == log[p];
  }

  lemma CallGrows(log: seq<Event>, events: seq<Event>, c: Cache<nat>, c': Cache<nat>, id: nat, call: Call)
    requires CallOk(log, c, id, call) && Invalidation(call.db) !in events
    requires call.phase.Minting? ==> call.db in c'.minting && (call.db in c'.flagged <==> call.db in c.flagged)
    ensures CallOk(log + events, c', id, call)
  {
    if call.phase.Minting? {
      UntouchedGrows(log, events, call.db, call.phase.mint);
    }
  }

  lemma ServedGrows(cfg: Config, log: seq<Event>, events: seq<Event>, j: nat)
    requires j < |log| && ServedOk(cfg, log, j)
    ensures ServedOk(cfg, log + events, j)
  {
    var log' := log + events;
    if log[j].CacheHit? {
      var at :| Published(log, log[j].db, log[j].mint, at, j) && log[j].now - at < cfg.ttl;
      var p :| 0 <= p < j && IsPublication(log[p], log[j].db, log[j].mint, at);
      assert IsPublication(log'[p], log'[j].db, log'[j].mint, at);
      assert Published(log', log'[j].db, log'[j].mint, at, j);
    }
  }

  lemma LogGrows(cfg: Config, log: seq<Event>, events: seq<Event>)
    requires LogOk(cfg, log)
    requires forall j :: |log| <= j < |log + events| ==> ServedOk(cfg, log + events, j)
    ensures LogOk(cfg, log + events)
  {
    forall j | 0 <= j < |log| ensures ServedOk(cfg, log + events, j) {
      ServedGrows(cfg, log, events, j);
    }
  }

  // ---- each action keeps the invariant ----

  /** How the registers follow the phase of the one call that moves. */
  ghost predicate Registers(s: Sys, id: nat, phase: Phase, c: Cache<nat>)
    requires id in s.calls
  {
    var db := s.calls[id].db;
    if phase.Minting? then
      && !s.calls[id].phase.Minting? && db !in s.cache.minting
      && c.minting == s.cache.minting + {db} && c.flagged == s.cache.flagged
    else if s.calls[id].phase.Minting? then
      c.minting == s.cache.minting - {db} && c.flagged == s.cache.flagged - {db}
    else
      c.minting == s.cache.minting && c.flagged == s.cache.flagged
  }

  lemma MovedSingleFlight(s: Sys, id: nat, phase: Phase, c: Cache<nat>, events: seq<Event>)
    requires SingleFlight(s) && CallsOk(s) && id in s.calls && Registers(s, id, phase, c)
    ensures SingleFlight(Moved(s, id, phase, c, events))
  {
    var db, s' := s.calls[id].db, Moved(s, id, phase, c, events);
    assert CallOk(s.log, s.cache, id, s.calls[id]);
    forall b | b in s'.cache.minting ensures exists d :: InFlight(s', d, b) {
      if b == db && phase.Minting? {
        assert InFlight(s', id, b);
      } else {
        var d :| InFlight(s, d, b);
        assert InFlight(s', d, b);
      }
    }
    forall b, d, e | InFlight(s', d, b) && InFlight(s', e, b) ensures d == e {
      assert d != id ==> InFlight(s, d, b) && CallOk(s.log, s.cache, d, s.calls[d]);
      assert e != id ==> InFlight(s, e, b) && CallOk(s.log, s.cache, e, s.calls[e]);
    }
  }

  lemma MovedCalls(s: Sys, id: nat, phase: Phase, c: Cache<nat>, events: seq<Event>)
    requires SingleFlight(s) && CallsOk(s) && id in s.calls && Registers(s, id, phase, c)
    requires s.cache.flagged <= s.cache.minting && forall db :: Invalidation(db) !in events
    requires phase.Minting? ==> phase.mint == |s.log| && events == [Claim(id, s.calls[id].db)]
    ensures CallsOk(Moved(s, id, phase, c, events))
  {
    var db, s' := s.calls[id].db, Moved(s, id, phase, c, events);
    forall d | d in s'.calls ensures CallOk(s'.log, c, d, s'.calls[d]) {
      if d != id {
        var other := s.calls[d];
        assert CallOk(s.log, s.cache, d, other);
        if other.phase.Minting? {
          assert InFlight(s, d, other.db);
          assert s.calls[id].phase.Minting? ==> InFlight(s, id, db);
        }
        CallGrows(s.log, events, s.cache, c, d, other);
      }
    }
  }

  lemma MovedInv(cfg: Config, s: Sys, id: nat, phase: Phase, c: Cache<nat>, events: seq<Event>)
    requires Inv(cfg, s) && id in s.calls && Registers(s, id, phase, c)
    requires forall db :: Invalidation(db) !in events
    requires phase.Minting? ==> phase.mint == |s.log| && events == [Claim(id, s.calls[id].db)]
    requires CacheOk(cfg, c) && EntriesOk(s.log + events, c.entries)
    requires forall j :: |s.log| <= j < |s.log + events| ==> ServedOk(cfg, s.log + events, j)
    ensures Inv(cfg, Moved(s, id, phase, c, events))
  {
    LogGrows(cfg, s.log, events);
    MovedCalls(s, id, phase, c, events);
    MovedSingleFlight(s, id, phase, c, events);
  }

  lemma EntriesGrow(log: seq<Event>, events: seq<Event>, es: seq<Entry<nat>>)
    requires EntriesOk(log, es) && forall db :: Invalidation(db) !in events
    ensures EntriesOk(log + events, es)
  {
    forall i | 0 <= i < |es| ensures EntryOk(log + events, es[i]) {
      EntryGrows(log, events, es[i]);
    }
  }

  lemma HitServed(cfg: Config, log: seq<Event>, e: Entry<nat>, id: nat, now: real)
    requires EntryOk(log, e) && now - e.mintedAt < cfg.ttl
    ensures ServedOk(cfg, log + [CacheHit(id, e.db, e.token, now)], |log|)
  {
    var log' := log + [CacheHit(id, e.db, e.token, now)];
    assert log'[|log|] == CacheHit(id, e.db, e.token, now);
    var p :| 0 <= p < |log| && IsPublication(log[p], e.db, e.token, e.mintedAt);
    assert IsPublication(log'[p], e.db, e.token, e.mintedAt);
    assert Published(log', e.db, e.token, e.mintedAt, |log|);
  }

  lemma HitInv(cfg: Config, s: Sys, id: nat, now: real, i: nat)
    requires Inv(cfg, s) && id in s.calls && !s.calls[id].phase.Minting?
    requires i < |s.cache.entries| && s.cache.entries[i].db == s.calls[id].db
    requires now - s.cache.entries[i].mintedAt < cfg.ttl
    ensures var es, e := s.cache.entries, s.cache.entries[i];
            Inv(cfg, Moved(s, id, Finished, s.cache.(entries := es[..i] + es[i + 1..] + [e]),
                           [CacheHit(id, e.db, e.token, now)]))
  {
    var es, e := s.cache.entries, s.cache.entries[i];
    var es', events := es[..i] + es[i + 1..] + [e], [CacheHit(id, e.db, e.token, now)];
    assert EntryOk(s.log, e);
    HitServed(cfg, s.log, e, id, now);
    forall j | 0 <= j < |es'| ensures EntryOk(s.log, es'[j]) {
      assert es'[j] == if j < i then es[j] else if j < |es| - 1 then es[j + 1] else e;
    }
    EntriesGrow(s.log, events, es');
    MovedInv(cfg, s, id, Finished, s.cache.(entries := es'), events);
  }

  lemma ClaimInv(cfg: Config, s: Sys, id: nat)
    requires Inv(cfg, s) && id in s.calls && s.calls[id].phase.AtTop?
    requires s.calls[id].db !in s.cache.minting
    ensures var db := s.calls[id].db;
            Inv(cfg, Moved(s, id, Minting(|s.log|), s.cache.(minting := s.cache.minting + {db}), [Claim(id, db)]))
  {
    var db := s.calls[id].db;
    EntriesGrow(s.log, [Claim(id, db)], s.cache.entries);
    MovedInv(cfg, s, id, Minting(|s.log|), s.cache.(minting := s.cache.minting + {db}), [Claim(id, db)]);
  }

  /** Blocking, waking and giving up touch neither the cache nor what was served. */
  lemma IdleInv(cfg: Config, s: Sys, id: nat, phase: Phase, events: seq<Event>)
    requires Inv(cfg, s) && id in s.calls && !s.calls[id].phase.Minting? && !phase.Minting?
    requires forall e :: e in events ==> e.Block? || e.TimedOut?
    ensures Inv(cfg, Moved(s, id, phase, s.cache, events))
  {
    EntriesGrow(s.log, events, s.cache.entries);
    var log' := s.log + events;
    forall j | |s.log| <= j < |log'| ensures ServedOk(cfg, log', j) {
      assert log'[j] in events;
    }
    MovedInv(cfg, s, id, phase, s.cache, events);
  }

  lemma BusyInv(cfg: Config, s: Sys, id: nat, mono: real)
    requires Inv(cfg, s) && id in s.calls && s.calls[id].phase.AtTop?
    ensures Inv(cfg, BusyStep(cfg, s, id, mono))
  {
    var deadline := s.calls[id].phase.deadline;
    var until := if deadline.Some? then deadline.value else mono + cfg.waitTimeout;
    var first := if deadline.Some? then [] else [Block(id, mono)];
    if until - mono <= 0.0 {
      IdleInv(cfg, s, id, Finished, first + [TimedOut(id, mono)]);
    } else {
      IdleInv(cfg, s, id, Waiting(until), first);
    }
  }

  lemma LockInv(cfg: Config, s: Sys, id: nat, now: real, mono: real)
    requires Inv(cfg, s) && id in s.calls && s.calls[id].phase.AtTop?
    ensures Inv(cfg, LockStep(cfg, s, id, now, mono))
  {
    var db, s' := s.calls[id].db, LockStep(cfg, s, id, now, mono);
    var i := IndexOf(s.cache.entries, db);
    match Enter(cfg, s.cache, db, now).1
    case Hit(mint) => HitInv(cfg, s, id, now, i);
    case Claimed => ClaimInv(cfg, s, id);
    case Busy => BusyInv(cfg, s, id, mono);
  }

  lemma PublicationServed(cfg: Config, s: Sys, id: nat, mintedAt: real)
    requires Inv(cfg, s) && id in s.calls && s.calls[id].phase.Minting? && s.calls[id].db !in s.cache.flagged
    ensures var db, mint := s.calls[id].db, s.calls[id].phase.mint;
            var log' := s.log + [Publication(id, db, mint, mintedAt)];
            ServedOk(cfg, log', |s.log|) && EntryOk(log', Entry(db, mint, mintedAt))
  {
    var db, mint := s.calls[id].db, s.calls[id].phase.mint;
    var events := [Publication(id, db, mint, mintedAt)];
    var log' := s.log + events;
    assert CallOk(s.log, s.cache, id, s.calls[id]);
    assert log'[|s.log|] == events[0] && log'[mint] == s.log[mint];
    UntouchedGrows(s.log, events, db, mint);
    assert IsPublication(log'[|s.log|], db, mint, mintedAt);
  }

  lemma EvictedEntries(log: seq<Event>, es: seq<Entry<nat>>, e: Entry<nat>, max: nat)
    requires DistinctKeys(es) && |es| <= max && max >= 1 && EntriesOk(log, es) && EntryOk(log, e)
    ensures var r := Evict(Without(es, e.db) + [e], max);
            DistinctKeys(r) && |r| <= max && EntriesOk(log, r)
  {
    var i := IndexOf(es, e.db);
    var kept := Without(es, e.db);
    forall j | 0 <= j < |kept| ensures EntryOk(log, kept[j]) && kept[j].db != e.db {
      assert kept[j] == es[if j < i then j else j + 1];
    }
    assert DistinctKeys(kept + [e]);
  }

  lemma PublishInv(cfg: Config, s: Sys, id: nat, mintedAt: real)
    requires ValidConfig(cfg) && Inv(cfg, s) && id in s.calls && s.calls[id].phase.Minting?
    requires s.calls[id].db !in s.cache.flagged
    ensures var db, mint := s.calls[id].db, s.calls[id].phase.mint;
            Inv(cfg, Moved(s, id, Finished, Publish(cfg, s.cache, db, mint, mintedAt).0,
                           [Publication(id, db, mint, mintedAt)]))
  {
    var db, mint := s.calls[id].db, s.calls[id].phase.mint;
    var events := [Publication(id, db, mint, mintedAt)];
    PublicationServed(cfg, s, id, mintedAt);
    EntriesGrow(s.log, events, s.cache.entries);
    EvictedEntries(s.log + events, s.cache.entries, Entry(db, mint, mintedAt), cfg.maxEntries);
    var c := Publish(cfg, s.cache, db, mint, mintedAt).0;
    assert Registers(s, id, Finished, c);
    MovedInv(cfg, s, id, Finished, c, events);
  }

  /** An event that serves nothing, from a call whose mint is over. */
  lemma MintOverInv(cfg: Config, s: Sys, id: nat, phase: Phase, event: Event)
    requires Inv(cfg, s) && id in s.calls && s.calls[id].phase.Minting? && !phase.Minting?
    requires event.Discard? || event.MintError?
    ensures Inv(cfg, Moved(s, id, phase, MintFailed(s.cache, s.calls[id].db), [event]))
  {
    EntriesGrow(s.log, [event], s.cache.entries);
    MovedInv(cfg, s, id, phase, MintFailed(s.cache, s.calls[id].db), [event]);
  }

  lemma MintReturnsInv(cfg: Config, s: Sys, id: nat, mintedAt: real)
    requires ValidConfig(cfg) && Inv(cfg, s) && id in s.calls && s.calls[id].phase.Minting?
    ensures Inv(cfg, MintReturnStep(cfg, s, id, mintedAt))
  {
    var db := s.calls[id].db;
    if db in s.cache.flagged {
      MintOverInv(cfg, s, id, AtTop(None), Discard(id, db));
    } else {
      PublishInv(cfg, s, id, mintedAt);
    }
  }

  lemma InvalidateEntries(log: seq<Event>, es: seq<Entry<nat>>, db: string)
    requires DistinctKeys(es) && EntriesOk(log, es)
    ensures var r := Without(es, db);
            DistinctKeys(r) && |r| <= |es| && EntriesOk(log + [Invalidation(db)], r)
  {
    var i, r := IndexOf(es, db), Without(es, db);
    forall j | 0 <= j < |r| ensures EntryOk(log + [Invalidation(db)], r[j]) {
      assert r[j] == es[if j < i then j else j + 1];
      EntryGrows(log, [Invalidation(db)], r[j]);
    }
  }

  lemma InvalidateInv(cfg: Config, s: Sys, db: string)
    requires Inv(cfg, s)
    ensures Inv(cfg, Sys(Invalidated(s.cache, db), s.calls, s.log + [Invalidation(db)]))
  {
    var c, log' := Invalidated(s.cache, db), s.log + [Invalidation(db)];
    InvalidateEntries(s.log, s.cache.entries, db);
    LogGrows(cfg, s.log, [Invalidation(db)]);
    forall id | id in s.calls ensures CallOk(log', c, id, s.calls[id]) {
      var call := s.calls[id];
      assert CallOk(s.log, s.cache, id, call);
      if call.phase.Minting? {
        if call.db == db {
          assert log'[|s.log|] == Invalidation(db);
        } else {
          CallGrows(s.log, [Invalidation(db)], s.cache, c, id, call);
        }
      }
    }
    var s' := Sys(c, s.calls, log');
    forall b | b in c.minting ensures exists id :: InFlight(s', id, b) {
      var id :| InFlight(s, id, b);
      assert InFlight(s', id, b);
    }
    forall b, d, e | InFlight(s', d, b) && InFlight(s', e, b) ensures d == e {
      assert InFlight(s, d, b) && InFlight(s, e, b);
    }
  }

  lemma BeginInv(cfg: Config, s: Sys, id: nat, db: string)
    requires Inv(cfg, s) && id !in s.calls
    ensures Inv(cfg, s.(calls := s.calls[id := Call(db, AtTop(None))]))
  {
    var s' := s.(calls := s.calls[id := Call(db, AtTop(None))]);
    forall d | d in s'.calls ensures CallOk(s.log, s.cache, d, s'.calls[d]) {
      assert d != id ==> CallOk(s.log, s.cache, d, s.calls[d]);
    }
    forall b | b in s.cache.minting ensures exists d :: InFlight(s', d, b) {
      var d :| InFlight(s, d, b);
      assert InFlight(s', d, b);
    }
    forall b, d, e | InFlight(s', d, b) && InFlight(s', e, b) ensures d == e {
      assert InFlight(s, d, b) && InFlight(s, e, b);
    }
  }

  lemma StepInv(cfg: Config, s: Sys, a: Action)
    requires ValidConfig(cfg) && Inv(cfg, s)
    ensures Inv(cfg, Step(cfg, s, a))
  {
    match a
    case Begin(id, db) => if id !in s.calls { BeginInv(cfg, s, id, db); }
    case Lock(id, now, mono) =>
      if id in s.calls && s.calls[id].phase.AtTop? { LockInv(cfg, s, id, now, mono); }
    case Notified(id) =>
      if id in s.calls && s.calls[id].phase.Waiting? {
        IdleInv(cfg, s, id, AtTop(Some(s.calls[id].phase.until)), []);
      }
    case WaitExpires(id, mono) =>
      if id in s.calls && s.calls[id].phase.Waiting? { IdleInv(cfg, s, id, Finished, [TimedOut(id, mono)]); }
    case MintReturns(id, mintedAt) =>
      if id in s.calls && s.calls[id].phase.Minting? { MintReturnsInv(cfg, s, id, mintedAt); }
    case MintRaises(id) =>
      if id in s.calls && s.calls[id].phase.Minting? {
        MintOverInv(cfg, s, id, Finished, MintError(id, s.calls[id].db));
      }
    case InvalidateDb(db) => InvalidateInv(cfg, s, db);
  }

  /** Every reachable state keeps the invariant. */
  lemma {:induction false} RunInv(cfg: Config, actions: seq<Action>)
    requires ValidConfig(cfg)
    ensures Inv(cfg, Run(cfg, actions))
  {
    if actions != [] {
      RunInv(cfg, actions[..|actions| - 1]);
      StepInv(cfg, Run(cfg, actions[..|actions| - 1]), actions[|actions| - 1]);
    }
  }
}
