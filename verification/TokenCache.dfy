/** The single-flight LRU/TTL cache of short-lived database tokens.

    Each `with self._condition` block of the source is one atomic step.  A block
    is a function from cache value to cache value; the class `TenantTokenCache`
    holds the source's three fields and is proved to compute those functions.
    Tokens are a type parameter: the cache never looks inside one. */
module TokenCache {
  import opened Common

  datatype Config = Config(ttl: real, maxEntries: nat, waitTimeout: real)

  /** What `__init__` checks. */
  predicate ValidConfig(cfg: Config) {
    cfg.maxEntries >= 1 && cfg.waitTimeout > 0.0
  }

  datatype Entry<T> = Entry(db: string, token: T, mintedAt: real)

  /** `entries` is the ordered dictionary, least recently used first. */
  datatype Cache<T> = Cache(entries: seq<Entry<T>>, minting: set<string>, flagged: set<string>)

  function Empty<T>(): Cache<T> {
    Cache([], {}, {})
  }

  ghost predicate DistinctKeys<T>(es: seq<Entry<T>>) {
    forall i, j :: 0 <= i < j < |es| ==> es[i].db != es[j].db
  }

  /** Dictionary lookup: the position of `db`, or the length when it is absent. */
  function IndexOf<T>(es: seq<Entry<T>>, db: string): (i: nat)
    ensures i <= |es|
    ensures i < |es| ==> es[i].db == db
    ensures forall j :: 0 <= j < i ==> es[j].db != db
  {
    if es == [] then 0
    else if es[0].db == db then 0
    else 1 + IndexOf(es[1..], db)
  }

  /** Dictionary removal; the other keys keep their order. */
  function Without<T>(es: seq<Entry<T>>, db: string): seq<Entry<T>> {
    var i := IndexOf(es, db);
    if i == |es| then es else es[..i] + es[i + 1..]
  }

  /** `while len > max: popitem(last=False)`: keep the most recently used. */
  function Evict<T>(es: seq<Entry<T>>, max: nat): seq<Entry<T>> {
    if |es| > max then es[|es| - max..] else es
  }

  datatype Entered<T> = Hit(token: T) | Claimed | Busy

  /** The first block of `get_token`. */
  function Enter<T>(cfg: Config, c: Cache<T>, db: string, now: real): (Cache<T>, Entered<T>) {
    var i := IndexOf(c.entries, db);
    if i < |c.entries| && now - c.entries[i].mintedAt < cfg.ttl then
      (c.(entries := Without(c.entries, db) + [c.entries[i]]), Hit(c.entries[i].token))
    else if db !in c.minting then
      (c.(minting := c.minting + {db}), Claimed)
    else
      (c, Busy)
  }

  /** The block that runs when the mint raised. */
  function MintFailed<T>(c: Cache<T>, db: string): Cache<T> {
    Cache(c.entries, c.minting - {db}, c.flagged - {db})
  }

  /** The block that runs when the mint returned; the flag says whether its token is served. */
  function Publish<T>(cfg: Config, c: Cache<T>, db: string, token: T, mintedAt: real): (Cache<T>, bool) {
    var entries := if db in c.flagged then c.entries
                   else Evict(Without(c.entries, db) + [Entry(db, token, mintedAt)], cfg.maxEntries);
    (Cache(entries, c.minting - {db}, c.flagged - {db}), db !in c.flagged)
  }

  function Invalidated<T>(c: Cache<T>, db: string): Cache<T> {
    Cache(Without(c.entries, db), c.minting,
          if db in c.minting then c.flagged + {db} else c.flagged)
  }

  /** What every block keeps: one entry per database, no more than the bound, and flags only
      for mints in flight. */
  ghost predicate CacheOk<T>(cfg: Config, c: Cache<T>) {
    DistinctKeys(c.entries) && |c.entries| <= cfg.maxEntries && c.flagged <= c.minting
  }

  lemma WithoutKeepsDistinct<T>(es: seq<Entry<T>>, db: string)
    requires DistinctKeys(es)
    ensures DistinctKeys(Without(es, db)) && |Without(es, db)| <= |es|
    ensures forall i :: 0 <= i < |Without(es, db)| ==> Without(es, db)[i].db != db
    ensures IndexOf(es, db) < |es| ==> |Without(es, db)| == |es| - 1
  {
    var i := IndexOf(es, db);
    forall j | 0 <= j < |Without(es, db)| ensures Without(es, db)[j] == es[if j < i then j else j + 1] {
    }
  }

  lemma AppendKeepsDistinct<T>(es: seq<Entry<T>>, e: Entry<T>)
    requires DistinctKeys(es)
    ensures DistinctKeys(Without(es, e.db) + [e])
  {
    WithoutKeepsDistinct(es, e.db);
  }

  lemma EvictKeepsDistinct<T>(es: seq<Entry<T>>, max: nat)
    requires DistinctKeys(es)
    ensures DistinctKeys(Evict(es, max)) && |Evict(es, max)| <= max
  {
  }

  lemma EnterKeepsOk<T>(cfg: Config, c: Cache<T>, db: string, now: real)
    requires CacheOk(cfg, c)
    ensures CacheOk(cfg, Enter(cfg, c, db, now).0)
  {
    var i := IndexOf(c.entries, db);
    if i < |c.entries| {
      WithoutKeepsDistinct(c.entries, db);
      AppendKeepsDistinct(c.entries, c.entries[i]);
    }
  }

  lemma PublishKeepsOk<T>(cfg: Config, c: Cache<T>, db: string, token: T, mintedAt: real)
    requires CacheOk(cfg, c)
    ensures CacheOk(cfg, Publish(cfg, c, db, token, mintedAt).0)
  {
    var e := Entry(db, token, mintedAt);
    AppendKeepsDistinct(c.entries, e);
    EvictKeepsDistinct(Without(c.entries, db) + [e], cfg.maxEntries);
  }

  /** The source's object: its blocks as methods over its three fields. */
  class TenantTokenCache<T(==)> {
    const cfg: Config
    var cache: seq<Entry<T>>
    var minting: set<string>
    var flagged: set<string>

    function Model(): Cache<T>
      reads this
    {
      Cache(cache, minting, flagged)
    }

    ghost predicate Valid()
      reads this
    {
      ValidConfig(cfg) && CacheOk(cfg, Model())
    }

    constructor (cfg: Config)
      requires ValidConfig(cfg)
      ensures Valid() && this.cfg == cfg && Model() == Empty()
    {
      this.cfg := cfg;
      cache, minting, flagged := [], {}, {};
    }

    method Len() returns (n: nat)
      requires Valid()
      ensures n == |Model().entries| && n <= cfg.maxEntries
    {
      n := |cache|;
    }

    method EnterBlock(db: string, now: real) returns (r: Entered<T>)
      requires Valid()
      modifies this
      ensures Valid()
      ensures (Model(), r) == Enter(cfg, old(Model()), db, now)
    {
      EnterKeepsOk(cfg, Model(), db, now);
      var i := IndexOf(cache, db);
      if i < |cache| {
        var entry := cache[i];
        if now - entry.mintedAt < cfg.ttl {
          cache := Without(cache, db) + [entry];
          return Hit(entry.token);
        }
      }
      if db !in minting {
        minting := minting + {db};
        r := Claimed;
      } else {
        r := Busy;
      }
    }

    method MintFailedBlock(db: string)
      requires Valid()
      modifies this
      ensures Valid()
      ensures Model() == MintFailed(old(Model()), db)
    {
      minting := minting - {db};
      flagged := flagged - {db};
    }

    /** `popitem(last=False)` until the bound holds. */
    method EvictOldest()
      modifies this`cache
      ensures cache == Evict(old(cache), cfg.maxEntries)
    {
      ghost var full := cache;
      while |cache| > cfg.maxEntries
        invariant |cache| <= |full| && cache == full[|full| - |cache|..]
        invariant |cache| < |full| ==> |cache| >= cfg.maxEntries
      {
        cache := cache[1..];
      }
    }

    method PublishBlock(db: string, token: T, mintedAt: real) returns (served: bool)
      requires Valid()
      modifies this
      ensures Valid()
      ensures (Model(), served) == Publish(cfg, old(Model()), db, token, mintedAt)
    {
      PublishKeepsOk(cfg, Model(), db, token, mintedAt);
      var invalidated := db in flagged;
      flagged := flagged - {db};
      minting := minting - {db};
      if !invalidated {
        cache := Without(cache, db) + [Entry(db, token, mintedAt)];
        EvictOldest();
      }
      served := !invalidated;
    }

    method Invalidate(db: string)
      requires Valid()
      modifies this
      ensures Valid()
      ensures Model() == Invalidated(old(Model()), db)
    {
      WithoutKeepsDistinct(cache, db);
      cache := Without(cache, db);
      if db in minting {
        flagged := flagged + {db};
      }
    }
  }
}
