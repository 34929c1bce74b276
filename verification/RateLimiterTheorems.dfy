/** What the rate limiter guarantees over whole runs. */
module RateLimiterTheorems {
  import opened Common
  import opened RateLimiter

  datatype Call = Call(key: Key, now: real)

  /** A run of sequential calls on a fresh limiter, on a clock that never runs backwards. */
  datatype Run = Run(states: seq<Limiter>, calls: seq<Call>, outcomes: seq<Outcome>) {
    ghost predicate Shape() {
      |states| == |calls| + 1 && |outcomes| == |calls|
    }

    ghost predicate Valid(cfg: Config)
    {
      && Shape() && states[0] == Init()
      && (forall i, j :: 0 <= i < j < |calls| ==> calls[i].now <= calls[j].now)
      && (forall i :: 0 <= i < |calls| ==>
            Checked(cfg, states[i], calls[i].key, calls[i].now, states[i + 1], outcomes[i]))
    }
  }

  // ---- pruning ----

  /** `nextPruneAt` bounds every expiry from below, the table is bounded, counts are in range. */
  ghost predicate Inv(cfg: Config, s: Limiter) {
    && |s.buckets| <= cfg.maxBuckets
    && (forall k :: k in s.buckets ==> s.nextPruneAt.Some? && s.nextPruneAt.value <= s.buckets[k].expiresAt)
    && (forall k :: k in s.buckets ==> 1 <= s.buckets[k].count <= RuleFor(cfg, k).limit)
  }

  lemma LiveSmaller(buckets: map<Key, Bucket>, now: real)
    ensures |Live(buckets, now)| <= |buckets|
    ensures forall k :: k in buckets && k !in Live(buckets, now) ==> |Live(buckets, now)| < |buckets|
  {
    var live := Live(buckets, now);
    assert live.Keys <= buckets.Keys;
    SubsetSize(live.Keys, buckets.Keys);
    assert |live| == |live.Keys| && |buckets| == |buckets.Keys|;
    forall k | k in buckets && k !in live ensures |live| < |buckets| {
      SubsetSize(live.Keys, buckets.Keys - {k});
    }
  }

  lemma {:induction false} SubsetSize<T>(a: set<T>, b: set<T>)
    requires a <= b
    ensures |a| <= |b|
  {
    if a != {} {
      var x :| x in a;
      SubsetSize(a - {x}, b - {x});
    }
  }

  /** After the prune check no expired bucket remains, so a call never meets one. */
  lemma PruneIsComplete(cfg: Config, s: Limiter, now: real, s': Limiter)
    requires Inv(cfg, s) && Pruned(s, now, s')
    ensures Inv(cfg, s') && s'.buckets == Live(s.buckets, now)
    ensures forall k :: k in s'.buckets ==> s'.buckets[k].expiresAt > now
  {
    LiveSmaller(s.buckets, now);
    if !Reached(s.nextPruneAt, now) {
      assert Live(s.buckets, now) == s.buckets;
    }
  }

  lemma OpenedInv(cfg: Config, s: Limiter, key: Key, now: real, window: nat)
    requires ValidConfig(cfg) && Inv(cfg, s)
    requires key in s.buckets || |s.buckets| < cfg.maxBuckets
    ensures Inv(cfg, Opened(s, key, now, window))
  {
  }

  lemma RecountInv(cfg: Config, s: Limiter, key: Key)
    requires Inv(cfg, s) && key in s.buckets && s.buckets[key].count < RuleFor(cfg, key).limit
    ensures Inv(cfg, s.(buckets := s.buckets[key := s.buckets[key].(count := s.buckets[key].count + 1)]))
  {
  }

  lemma CountedInv(cfg: Config, s: Limiter, key: Key, now: real, s': Limiter, r: Outcome)
    requires ValidConfig(cfg) && Inv(cfg, s) && Counted(cfg, s, key, now, s', r)
    ensures Inv(cfg, s')
  {
    var rule := RuleFor(cfg, key);
    if s' == Opened(s, key, now, rule.windowSeconds) && (key in s.buckets || |s.buckets| < cfg.maxBuckets) {
      OpenedInv(cfg, s, key, now, rule.windowSeconds);
    } else if s' != s {
      RecountInv(cfg, s, key);
    }
  }

  lemma {:induction false} RunInv(cfg: Config, run: Run, n: nat)
    requires ValidConfig(cfg) && run.Valid(cfg) && n <= |run.calls|
    ensures Inv(cfg, run.states[n])
  {
    if n > 0 {
      RunInv(cfg, run, n - 1);
      var s, key, now := run.states[n - 1], run.calls[n - 1].key, run.calls[n - 1].now;
      assert Checked(cfg, s, key, now, run.states[n], run.outcomes[n - 1]);
      var mid :| Pruned(s, now, mid) && Counted(cfg, mid, key, now, run.states[n], run.outcomes[n - 1]);
      PruneIsComplete(cfg, s, now, mid);
      CountedInv(cfg, mid, key, now, run.states[n], run.outcomes[n - 1]);
    }
  }

  // ---- retry after ----

  /** On a state without expired buckets, any key can be counted that has no bucket and finds room. */
  lemma AcceptedWithRoom(cfg: Config, s: Limiter, key: Key, now: real, s': Limiter, r: Outcome)
    requires Counted(cfg, s, key, now, s', r) && key !in s.buckets && |s.buckets| < cfg.maxBuckets
    ensures r == Accepted
  {
  }

  /** Pruning at or after a bucket's expiry makes room. */
  lemma ExpiryMakesRoom(cfg: Config, s: Limiter, k: Key, later: real, s': Limiter)
    requires Inv(cfg, s) && k in s.buckets && later >= s.buckets[k].expiresAt && Pruned(s, later, s')
    ensures k !in s'.buckets && |s'.buckets| < cfg.maxBuckets && s'.buckets.Keys <= s.buckets.Keys
  {
    PruneIsComplete(cfg, s, later, s');
    LiveSmaller(s.buckets, later);
  }

  /** A refusal leaves only open windows, and its wait outlasts one of them: the caller's
      own, or some other when the caller has none. */
  lemma RefusalNamesABucket(cfg: Config, s: Limiter, key: Key, now: real, s': Limiter, retry: int) returns (k: Key)
    requires ValidConfig(cfg) && Inv(cfg, s) && Checked(cfg, s, key, now, s', Refused(retry))
    ensures Inv(cfg, s') && k in s'.buckets && now + retry as real >= s'.buckets[k].expiresAt
    ensures key in s'.buckets ==> k == key
  {
    var mid :| Pruned(s, now, mid) && Counted(cfg, mid, key, now, s', Refused(retry));
    PruneIsComplete(cfg, s, now, mid);
    k := key;
    if key !in mid.buckets {
      assert mid.buckets != map[];
      k :| k in mid.buckets && retry == MaxInt(1, SecondsUntil(mid.buckets[k].expiresAt, now));
    }
  }

  /** A refused caller that waits at least the reported seconds, with no other call in
      between, is accepted, whichever way it was refused. */
  lemma {:induction false} RetryAfterIsHonest(cfg: Config, s: Limiter, key: Key, now: real, s': Limiter, retry: int,
                           later: real, s'': Limiter, r: Outcome)
    requires ValidConfig(cfg) && Inv(cfg, s)
    requires Checked(cfg, s, key, now, s', Refused(retry))
    requires later >= now + retry as real && Checked(cfg, s', key, later, s'', r)
    ensures r == Accepted
  {
    var k := RefusalNamesABucket(cfg, s, key, now, s', retry);
    var mid :| Pruned(s', later, mid) && Counted(cfg, mid, key, later, s'', r);
    ExpiryMakesRoom(cfg, s', k, later, mid);
    AcceptedWithRoom(cfg, mid, key, later, s'', r);
  }

  /** A caller over its limit stays refused for exactly as long as its window is open. */
  lemma {:induction false} RefusedUntilExpiry(cfg: Config, s: Limiter, key: Key, now: real, s': Limiter, retry: int,
                           later: real, s'': Limiter, r: Outcome)
    requires ValidConfig(cfg) && Inv(cfg, s)
    requires Checked(cfg, s, key, now, s', Refused(retry)) && key in s'.buckets
    requires later >= now && Checked(cfg, s', key, later, s'', r)
    ensures r == Accepted <==> later >= s'.buckets[key].expiresAt
    ensures retry as real > s'.buckets[key].expiresAt - now >= (retry - 1) as real
  {
    var mid :| Pruned(s, now, mid) && Counted(cfg, mid, key, now, s', Refused(retry));
    PruneIsComplete(cfg, s, now, mid);
    var mid' :| Pruned(s', later, mid') && Counted(cfg, mid', key, later, s'', r);
    PruneIsComplete(cfg, s', later, mid');
    LiveSmaller(s'.buckets, later);
  }

  // ---- accepted calls of one key ----

  /** An accepted call: when it was made and when the window it was counted in expires. */
  datatype Accept = Accept(at: real, expiresAt: real)

  ghost function History(run: Run, key: Key, n: nat): seq<Accept>
    requires run.Shape() && n <= |run.calls|
  {
    if n == 0 then []
    else
      var before := History(run, key, n - 1);
      if run.calls[n - 1].key == key && run.outcomes[n - 1] == Accepted && key in run.states[n].buckets
      then before + [Accept(run.calls[n - 1].now, run.states[n].buckets[key].expiresAt)]
      else before
  }

  ghost function Count(h: seq<Accept>, p: Accept -> bool): nat {
    if h == [] then 0 else Count(h[..|h| - 1], p) + if p(h[|h| - 1]) then 1 else 0
  }

  lemma {:induction false} CountLe(h: seq<Accept>, p: Accept -> bool, q: Accept -> bool, r: Accept -> bool)
    requires forall a :: a in h && p(a) ==> q(a) || r(a)
    ensures Count(h, p) <= Count(h, q) + Count(h, r)
  {
    if h != [] {
      assert h[|h| - 1] in h;
      CountLe(h[..|h| - 1], p, q, r);
    }
  }

  lemma {:induction false} CountNone(h: seq<Accept>, p: Accept -> bool)
    requires forall a :: a in h ==> !p(a)
    ensures Count(h, p) == 0
  {
    if h != [] {
      assert h[|h| - 1] in h;
      CountNone(h[..|h| - 1], p);
    }
  }

  ghost function InWindow(e: real): Accept -> bool {
    (a: Accept) => a.expiresAt == e
  }

  ghost function Within(from: real, to: real): Accept -> bool {
    (a: Accept) => from <= a.at <= to
  }

  /** Windows do not overlap, each call falls in its own, and none holds more than `limit`. */
  ghost predicate Windowed(h: seq<Accept>, window: real, limit: nat) {
    && (forall a :: a in h ==> a.at < a.expiresAt <= a.at + window)
    && (forall a, b :: a in h && b in h && a.expiresAt < b.expiresAt ==> a.expiresAt + window <= b.expiresAt)
    && (forall e :: Count(h, InWindow(e)) <= limit)
  }

  lemma TwoWindowsAtMost(h: seq<Accept>, window: real, limit: nat, from: real)
    requires Windowed(h, window, limit) && window > 0.0
    ensures Count(h, Within(from, from + window)) <= 2 * limit
  {
    var p := Within(from, from + window);
    if exists a :: a in h && p(a) {
      var a :| a in h && p(a);
      if exists b :: b in h && p(b) && b.expiresAt != a.expiresAt {
        var b :| b in h && p(b) && b.expiresAt != a.expiresAt;
        CountLe(h, p, InWindow(a.expiresAt), InWindow(b.expiresAt));
      } else {
        CountLe(h, p, InWindow(a.expiresAt), InWindow(a.expiresAt));
      }
    } else {
      CountNone(h, p);
    }
  }

  /** How the history of a key matches its bucket. */
  ghost predicate Matches(cfg: Config, h: seq<Accept>, s: Limiter, key: Key, now: real) {
    var window := RuleFor(cfg, key).windowSeconds as real;
    && Windowed(h, window, RuleFor(cfg, key).limit)
    && if key in s.buckets then
         var e := s.buckets[key].expiresAt;
         && e <= now + window
         && (forall a :: a in h ==> a.expiresAt == e || a.expiresAt + window <= e)
         && Count(h, InWindow(e)) == s.buckets[key].count
       else
         forall a :: a in h ==> a.expiresAt <= now
  }

  lemma CountAppend(h: seq<Accept>, a: Accept, p: Accept -> bool)
    ensures Count(h + [a], p) == Count(h, p) + if p(a) then 1 else 0
  {
  }

  lemma AppendWindowed(h: seq<Accept>, a: Accept, window: real, limit: nat)
    requires Windowed(h, window, limit) && a.at < a.expiresAt <= a.at + window
    requires forall b :: b in h ==> b.expiresAt == a.expiresAt || b.expiresAt + window <= a.expiresAt
    requires Count(h, InWindow(a.expiresAt)) < limit
    ensures Windowed(h + [a], window, limit)
  {
  }

  lemma MatchesPruned(cfg: Config, h: seq<Accept>, s: Limiter, key: Key, before: real, now: real, s': Limiter)
    requires ValidConfig(cfg) && Inv(cfg, s) && Matches(cfg, h, s, key, before)
    requires before <= now && Pruned(s, now, s')
    ensures Matches(cfg, h, s', key, now)
  {
  }

  lemma MatchesOpened(cfg: Config, h: seq<Accept>, s: Limiter, key: Key, now: real)
    requires ValidConfig(cfg) && Matches(cfg, h, s, key, now) && key !in s.buckets
    ensures var window := RuleFor(cfg, key).windowSeconds;
            Matches(cfg, h + [Accept(now, now + window as real)], Opened(s, key, now, window), key, now)
  {
    var rule := RuleFor(cfg, key);
    assert ValidRule(rule);
    var a := Accept(now, now + rule.windowSeconds as real);
    CountNone(h, InWindow(a.expiresAt));
    AppendWindowed(h, a, rule.windowSeconds as real, rule.limit);
    CountAppend(h, a, InWindow(a.expiresAt));
  }

  lemma MatchesCounted(cfg: Config, h: seq<Accept>, s: Limiter, key: Key, now: real, s': Limiter, r: Outcome, k: Key)
    requires ValidConfig(cfg) && Inv(cfg, s) && Matches(cfg, h, s, key, now)
    requires forall b :: b in s.buckets ==> s.buckets[b].expiresAt > now
    requires Counted(cfg, s, k, now, s', r)
    ensures var h' := if k == key && r == Accepted && key in s'.buckets
                      then h + [Accept(now, s'.buckets[key].expiresAt)] else h;
            Matches(cfg, h', s', key, now)
  {
    if k == key && r == Accepted {
      if key !in s.buckets {
        MatchesOpened(cfg, h, s, key, now);
      } else {
        var rule, a := RuleFor(cfg, key), Accept(now, s.buckets[key].expiresAt);
        AppendWindowed(h, a, rule.windowSeconds as real, rule.limit);
        CountAppend(h, a, InWindow(a.expiresAt));
      }
    }
  }

  lemma MatchesChecked(cfg: Config, h: seq<Accept>, s: Limiter, key: Key, before: real, now: real,
                       k: Key, s': Limiter, r: Outcome)
    requires ValidConfig(cfg) && Inv(cfg, s) && Matches(cfg, h, s, key, before) && before <= now
    requires Checked(cfg, s, k, now, s', r)
    ensures var h' := if k == key && r == Accepted && key in s'.buckets
                      then h + [Accept(now, s'.buckets[key].expiresAt)] else h;
            Matches(cfg, h', s', key, now)
  {
    var mid :| Pruned(s, now, mid) && Counted(cfg, mid, k, now, s', r);
    PruneIsComplete(cfg, s, now, mid);
    MatchesPruned(cfg, h, s, key, before, now, mid);
    MatchesCounted(cfg, h, mid, key, now, s', r, k);
  }

  lemma MatchesInit(cfg: Config, key: Key, now: real)
    ensures Matches(cfg, [], Init(), key, now)
  {
  }

  lemma RunStep(cfg: Config, run: Run, i: nat)
    requires run.Valid(cfg) && i < |run.calls|
    ensures Checked(cfg, run.states[i], run.calls[i].key, run.calls[i].now, run.states[i + 1], run.outcomes[i])
    ensures i > 0 ==> run.calls[i - 1].now <= run.calls[i].now
  {
  }

  lemma {:induction false} HistoryMatches(cfg: Config, run: Run, key: Key, n: nat, now: real)
    requires ValidConfig(cfg) && run.Valid(cfg) && n <= |run.calls|
    requires n > 0 ==> now == run.calls[n - 1].now
    ensures Matches(cfg, History(run, key, n), run.states[n], key, now)
  {
    if n == 0 {
      MatchesInit(cfg, key, now);
    } else {
      var i, call := n - 1, run.calls[n - 1];
      var before := if i == 0 then now else run.calls[i - 1].now;
      HistoryMatches(cfg, run, key, i, before);
      RunInv(cfg, run, i);
      RunStep(cfg, run, i);
      MatchesChecked(cfg, History(run, key, i), run.states[i], key, before, now,
                     call.key, run.states[n], run.outcomes[i]);
    }
  }

  lemma MatchesBound(cfg: Config, h: seq<Accept>, s: Limiter, key: Key, now: real, from: real)
    requires ValidConfig(cfg) && Matches(cfg, h, s, key, now)
    ensures var rule := RuleFor(cfg, key);
            Count(h, Within(from, from + rule.windowSeconds as real)) <= 2 * rule.limit
  {
    var rule := RuleFor(cfg, key);
    assert ValidRule(rule);
    TwoWindowsAtMost(h, rule.windowSeconds as real, rule.limit, from);
  }

  /** An operation's own rule, or the default one. */
  ghost predicate Rules(cfg: Config, key: Key, rule: Rule) {
    if key.operation in cfg.operationRules then rule == cfg.operationRules[key.operation] else rule == cfg.defaultRule
  }

  /** Over any run, any closed interval as long as the window of the key's rule holds at most
      twice that rule's limit of accepted calls of the key, across expiry, pruning and
      re-creation of its bucket. */
  lemma AtMostTwiceTheLimit(cfg: Config, run: Run, key: Key, rule: Rule, from: real)
    requires ValidConfig(cfg) && run.Valid(cfg) && Rules(cfg, key, rule)
    ensures Count(History(run, key, |run.calls|), Within(from, from + rule.windowSeconds as real)) <= 2 * rule.limit
  {
    var n := |run.calls|;
    var now := if n == 0 then 0.0 else run.calls[n - 1].now;
    HistoryMatches(cfg, run, key, n, now);
    MatchesBound(cfg, History(run, key, n), run.states[n], key, now, from);
  }

  /** An accepted call always has a bucket, so the history holds every accepted call. */
  lemma {:induction false} AcceptedIsRecorded(cfg: Config, run: Run, n: nat)
    requires run.Valid(cfg) && n < |run.calls| && run.outcomes[n] == Accepted
    ensures var key := run.calls[n].key;
            History(run, key, n + 1) == History(run, key, n)
              + [Accept(run.calls[n].now, run.states[n + 1].buckets[key].expiresAt)]
  {
    assert Checked(cfg, run.states[n], run.calls[n].key, run.calls[n].now, run.states[n + 1], run.outcomes[n]);
  }

  /** With the rules as shipped, dreams can be asked for at most twelve times in any hour. */
  lemma DreamRequestsPerHour(cfg: Config, defaultRule: Rule, maxBuckets: nat, run: Run, key: Key, from: real)
    requires cfg == Configured(defaultRule, map[], maxBuckets) && ValidConfig(cfg) && run.Valid(cfg)
    requires key.operation == "run_dream_phase"
    ensures Count(History(run, key, |run.calls|), Within(from, from + 3600.0)) <= 12
  {
    AtMostTwiceTheLimit(cfg, run, key, Rule(6, 3600), from);
  }

  /** A key is refused over its rule's limit only when its open window already holds exactly
      that many accepted calls; when the table is full, only when it has no open window. */
  lemma RefusalMeansFull(cfg: Config, run: Run, n: nat, rule: Rule)
    requires ValidConfig(cfg) && run.Valid(cfg) && n < |run.calls| && run.outcomes[n].Refused?
    requires Rules(cfg, run.calls[n].key, rule)
    ensures var key, s := run.calls[n].key, run.states[n + 1];
            if key in s.buckets then
              Count(History(run, key, n), InWindow(s.buckets[key].expiresAt)) == rule.limit
            else
              |s.buckets| == cfg.maxBuckets
  {
    var s, key, now := run.states[n], run.calls[n].key, run.calls[n].now;
    RunInv(cfg, run, n);
    RunInv(cfg, run, n + 1);
    assert Checked(cfg, s, key, now, run.states[n + 1], run.outcomes[n]);
    var mid :| Pruned(s, now, mid) && Counted(cfg, mid, key, now, run.states[n + 1], run.outcomes[n]);
    PruneIsComplete(cfg, s, now, mid);
    if key in mid.buckets {
      HistoryMatches(cfg, run, key, n, if n == 0 then 0.0 else run.calls[n - 1].now);
      assert mid.buckets[key] == s.buckets[key];
    }
  }

  /** In every reachable state the bound on expiries and the bound on buckets hold. */
  lemma BucketsBounded(cfg: Config, run: Run, n: nat)
    requires ValidConfig(cfg) && run.Valid(cfg) && n <= |run.calls|
    ensures var s := run.states[n];
            && |s.buckets| <= cfg.maxBuckets
            && forall k :: k in s.buckets ==> s.nextPruneAt.Some? && s.nextPruneAt.value <= s.buckets[k].expiresAt
  {
    RunInv(cfg, run, n);
  }
}
