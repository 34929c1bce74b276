/** The in-memory fixed-window rate limiter.

    One call is one step on a value `Limiter`; the class holds the source's fields and
    is proved to compute that step.  Calls are sequential and read a clock that does not
    run backwards; the source reads it just before taking the lock. */
module RateLimiter {
  import opened Common

  datatype Rule = Rule(limit: nat, windowSeconds: nat)

  /** What the rule's own check demands. */
  predicate ValidRule(r: Rule) {
    r.limit >= 1 && r.windowSeconds >= 1
  }

  datatype Key = Key(tenantId: string, principalId: string, keyId: string, operation: string)
  datatype Bucket = Bucket(count: nat, expiresAt: real)
  datatype Config = Config(defaultRule: Rule, operationRules: map<string, Rule>, maxBuckets: nat)

  predicate ValidConfig(cfg: Config) {
    && cfg.maxBuckets >= 1 && ValidRule(cfg.defaultRule)
    && forall op :: op in cfg.operationRules ==> ValidRule(cfg.operationRules[op])
  }

  const EXPENSIVE_OPERATION_LIMITS: map<string, Rule> := map[
    "expand_history" := Rule(30, 60),
    "fresh_context" := Rule(30, 60),
    "load_active_context" := Rule(30, 60),
    "run_dream_phase" := Rule(6, 3600),
    "export_scope" := Rule(6, 3600),
    "replay_scope" := Rule(6, 3600),
    "rebuild" := Rule(6, 3600),
    "delete_scope" := Rule(6, 3600)
  ]

  /** The rules given to the limiter add to the shipped ones, and win over them. */
  function Configured(defaultRule: Rule, operationRules: map<string, Rule>, maxBuckets: nat): (cfg: Config)
    ensures forall op :: op in operationRules ==>
              op in cfg.operationRules && cfg.operationRules[op] == operationRules[op]
    ensures forall op :: op in EXPENSIVE_OPERATION_LIMITS && op !in operationRules ==>
              op in cfg.operationRules && cfg.operationRules[op] == EXPENSIVE_OPERATION_LIMITS[op]
  {
    Config(defaultRule, EXPENSIVE_OPERATION_LIMITS + operationRules, maxBuckets)
  }

  function RuleFor(cfg: Config, key: Key): Rule {
    if key.operation in cfg.operationRules then cfg.operationRules[key.operation] else cfg.defaultRule
  }

  /** `nextPruneAt` is `None` for the source's positive infinity. */
  datatype Limiter = Limiter(buckets: map<Key, Bucket>, nextPruneAt: Option<real>)
  datatype Outcome = Accepted | Refused(retryAfter: int)

  function Init(): Limiter {
    Limiter(map[], None)
  }

  predicate Reached(at: Option<real>, now: real) {
    at.Some? && now >= at.value
  }

  function Sooner(at: Option<real>, t: real): Option<real> {
    if at.Some? && at.value <= t then at else Some(t)
  }

  /** `at` is the least expiry of the buckets, or nothing when there are none. */
  ghost predicate IsFirstExpiry(buckets: map<Key, Bucket>, at: Option<real>) {
    if at.None? then buckets == map[]
    else
      && (exists k :: k in buckets && buckets[k].expiresAt == at.value)
      && (forall k :: k in buckets ==> at.value <= buckets[k].expiresAt)
  }

  function Live(buckets: map<Key, Bucket>, now: real): map<Key, Bucket> {
    map k | k in buckets && buckets[k].expiresAt > now :: buckets[k]
  }

  function SecondsUntil(t: real, now: real): int {
    (t - now).Floor + 1
  }

  /** The whole seconds a caller refused for lack of room is told to wait. */
  ghost predicate IsShortestWait(buckets: map<Key, Bucket>, now: real, r: int) {
    if buckets == map[] then r == 1
    else
      && (exists k :: k in buckets && r == MaxInt(1, SecondsUntil(buckets[k].expiresAt, now)))
      && (forall k :: k in buckets ==> r <= MaxInt(1, SecondsUntil(buckets[k].expiresAt, now)))
  }

  /** The prune check at the top of a call. */
  ghost predicate Pruned(s: Limiter, now: real, s': Limiter) {
    if Reached(s.nextPruneAt, now) then
      s'.buckets == Live(s.buckets, now) && IsFirstExpiry(s'.buckets, s'.nextPruneAt)
    else
      s' == s
  }

  function Opened(s: Limiter, key: Key, now: real, window: nat): Limiter {
    var expiresAt := now + window as real;
    Limiter(s.buckets[key := Bucket(1, expiresAt)], Sooner(s.nextPruneAt, expiresAt))
  }

  /** The rest of a call, after the prune check. */
  ghost predicate Counted(cfg: Config, s: Limiter, key: Key, now: real, s': Limiter, r: Outcome) {
    var rule := RuleFor(cfg, key);
    if key !in s.buckets then
      if |s.buckets| >= cfg.maxBuckets then
        s' == s && r.Refused? && IsShortestWait(s.buckets, now, r.retryAfter)
      else
        s' == Opened(s, key, now, rule.windowSeconds) && r == Accepted
    else if s.buckets[key].expiresAt <= now then
      s' == Opened(s, key, now, rule.windowSeconds) && r == Accepted
    else if s.buckets[key].count >= rule.limit then
      s' == s && r == Refused(MaxInt(1, SecondsUntil(s.buckets[key].expiresAt, now)))
    else
      s' == s.(buckets := s.buckets[key := s.buckets[key].(count := s.buckets[key].count + 1)]) && r == Accepted
  }

  ghost predicate Checked(cfg: Config, s: Limiter, key: Key, now: real, s': Limiter, r: Outcome) {
    exists mid :: Pruned(s, now, mid) && Counted(cfg, mid, key, now, s', r)
  }

  class HostedInMemoryRateLimiter {
    const cfg: Config
    var buckets: map<Key, Bucket>
    var nextPruneAt: Option<real>

    function Model(): Limiter
      reads this
    {
      Limiter(buckets, nextPruneAt)
    }

    constructor (defaultRule: Rule, operationRules: map<string, Rule>, maxBuckets: nat)
      requires maxBuckets >= 1 && ValidRule(defaultRule)
      requires forall op :: op in operationRules ==> ValidRule(operationRules[op])
      ensures cfg == Configured(defaultRule, operationRules, maxBuckets) && ValidConfig(cfg) && Model() == Init()
    {
      cfg := Configured(defaultRule, operationRules, maxBuckets);
      buckets, nextPruneAt := map[], None;
    }

    method Check(key: Key, now: real) returns (r: Outcome)
      modifies this
      ensures Checked(cfg, old(Model()), key, now, Model(), r)
    {
      var rule := RuleFor(cfg, key);
      if Reached(nextPruneAt, now) {
        Prune(now);
      }
      ghost var mid := Model();
      assert Pruned(old(Model()), now, mid);
      if key !in buckets {
        if |buckets| >= cfg.maxBuckets {
          var wait := ShortestRetryAfter(now);
          r := Refused(MaxInt(1, wait));
          assert Counted(cfg, mid, key, now, Model(), r);
          return;
        }
        Open(key, now, rule.windowSeconds);
        r := Accepted;
      } else {
        var bucket := buckets[key];
        if bucket.expiresAt <= now {
          Open(key, now, rule.windowSeconds);
          r := Accepted;
        } else if bucket.count >= rule.limit {
          r := Refused(MaxInt(1, SecondsUntil(bucket.expiresAt, now)));
        } else {
          buckets := buckets[key := bucket.(count := bucket.count + 1)];
          r := Accepted;
        }
      }
      assert Counted(cfg, mid, key, now, Model(), r);
    }

    method Open(key: Key, now: real, window: nat)
      modifies this
      ensures Model() == Opened(old(Model()), key, now, window)
    {
      var expiresAt := now + window as real;
      buckets := buckets[key := Bucket(1, expiresAt)];
      nextPruneAt := Sooner(nextPruneAt, expiresAt);
    }

    method Prune(now: real)
      modifies this
      ensures buckets == Live(old(buckets), now) && IsFirstExpiry(buckets, nextPruneAt)
    {
      var todo := buckets.Keys;
      while todo != {}
        invariant todo <= old(buckets).Keys
        invariant buckets == map k | k in old(buckets)
                  && (k in todo || old(buckets)[k].expiresAt > now) :: old(buckets)[k]
      {
        var k :| k in todo;
        todo := todo - {k};
        if buckets[k].expiresAt <= now {
          buckets := buckets - {k};
        }
      }
      assert buckets == Live(old(buckets), now);
      todo, nextPruneAt := buckets.Keys, None;
      while todo != {}
        invariant todo <= buckets.Keys && buckets == Live(old(buckets), now)
        invariant IsFirstExpiry(map k | k in buckets && k !in todo :: buckets[k], nextPruneAt)
      {
        ghost var seen := map k | k in buckets && k !in todo :: buckets[k];
        var k :| k in todo;
        todo := todo - {k};
        ghost var grown := map k | k in buckets && k !in todo :: buckets[k];
        assert k in grown && grown == seen[k := buckets[k]];
        nextPruneAt := Sooner(nextPruneAt, buckets[k].expiresAt);
      }
      assert buckets == map k | k in buckets && k !in todo :: buckets[k];
    }

    method ShortestRetryAfter(now: real) returns (r: int)
      ensures r >= 1 && IsShortestWait(buckets, now, r)
    {
      var todo := buckets.Keys;
      r := 1;
      if todo != {} {
        var first :| first in todo;
        r := MaxInt(1, SecondsUntil(buckets[first].expiresAt, now));
        todo := todo - {first};
        while todo != {}
          invariant todo <= buckets.Keys && r >= 1
          invariant exists k :: k in buckets && r == MaxInt(1, SecondsUntil(buckets[k].expiresAt, now))
          invariant forall k :: k in buckets && k !in todo ==> r <= MaxInt(1, SecondsUntil(buckets[k].expiresAt, now))
        {
          var k :| k in todo;
          todo := todo - {k};
          r := MinInt(r, MaxInt(1, SecondsUntil(buckets[k].expiresAt, now)));
        }
      }
    }
  }
}
