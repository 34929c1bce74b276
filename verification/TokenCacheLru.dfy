/** The ordered dictionary refines a plain map whose slots carry a last-use time. */
module TokenCacheLru {
  import opened TokenCache

  datatype Slot<T> = Slot(token: T, mintedAt: real, used: nat)
  datatype Lru<T> = Lru(slots: map<string, Slot<T>>, tick: nat)

  ghost function Touch<T>(l: Lru<T>, db: string): Lru<T>
    requires db in l.slots
  {
    Lru(l.slots[db := l.slots[db].(used := l.tick)], l.tick + 1)
  }

  ghost function Drop<T>(l: Lru<T>, dbs: set<string>): Lru<T> {
    Lru(l.slots - dbs, l.tick)
  }

  ghost function Insert<T>(l: Lru<T>, db: string, token: T, mintedAt: real): Lru<T> {
    Lru(l.slots[db := Slot(token, mintedAt, l.tick)], l.tick + 1)
  }

  /** The keys whose last use is earliest. */
  ghost function LeastRecent<T>(l: Lru<T>): set<string> {
    set k | k in l.slots && forall j :: j in l.slots ==> l.slots[k].used <= l.slots[j].used
  }

  /** An insert that makes room by dropping the least recently used key. */
  ghost function Put<T>(l: Lru<T>, max: nat, db: string, token: T, mintedAt: real): Lru<T> {
    var grown := Insert(l, db, token, mintedAt);
    if |grown.slots| > max then Drop(grown, LeastRecent(grown)) else grown
  }

  ghost predicate Has<T>(es: seq<Entry<T>>, db: string) {
    exists i :: 0 <= i < |es| && es[i].db == db
  }

  ghost predicate Holds<T>(l: Lru<T>, e: Entry<T>) {
    && e.db in l.slots
    && l.slots[e.db].token == e.token
    && l.slots[e.db].mintedAt == e.mintedAt
    && l.slots[e.db].used < l.tick
  }

  ghost predicate Before<T>(l: Lru<T>, d: Entry<T>, e: Entry<T>) {
    d.db in l.slots && e.db in l.slots && l.slots[d.db].used < l.slots[e.db].used
  }

  /** Same contents, and the list order is the order of last use. */
  ghost predicate Agrees<T>(es: seq<Entry<T>>, l: Lru<T>) {
    && |es| == |l.slots|
    && (forall i :: 0 <= i < |es| ==> Holds(l, es[i]))
    && (forall k :: k in l.slots ==> Has(es, k))
    && (forall i, j :: 0 <= i < j < |es| ==> Before(l, es[i], es[j]))
  }

  lemma DropSlots<T>(l: Lru<T>, db: string)
    requires db in l.slots
    ensures Drop(l, {db}).slots.Keys == l.slots.Keys - {db}
    ensures |Drop(l, {db}).slots| == |l.slots| - 1
  {
  }

  lemma HoldsAfterDrop<T>(l: Lru<T>, e: Entry<T>, db: string)
    requires Holds(l, e) && e.db != db
    ensures Holds(Drop(l, {db}), e)
  {
  }

  lemma BeforeAfterDrop<T>(l: Lru<T>, d: Entry<T>, e: Entry<T>, db: string)
    requires Before(l, d, e) && d.db != db && e.db != db
    ensures Before(Drop(l, {db}), d, e)
  {
  }

  lemma HasAfterDrop<T>(es: seq<Entry<T>>, i: nat, k: string)
    requires i < |es| && Has(es, k) && k != es[i].db
    ensures Has(es[..i] + es[i + 1..], k)
  {
    var j :| 0 <= j < |es| && es[j].db == k;
    assert (es[..i] + es[i + 1..])[if j < i then j else j - 1] == es[j];
  }

  lemma OrderAfterDrop<T>(es: seq<Entry<T>>, l: Lru<T>, i: nat, j: nat, k: nat)
    requires Agrees(es, l) && i < |es| && j < k < |es| - 1
    ensures var r := es[..i] + es[i + 1..]; Before(Drop(l, {es[i].db}), r[j], r[k])
  {
    var j', k' := if j < i then j else j + 1, if k < i then k else k + 1;
    assert Before(l, es[j'], es[k']);
    assert if j < i then Before(l, es[j'], es[i]) else Before(l, es[i], es[j']);
    assert if k < i then Before(l, es[k'], es[i]) else Before(l, es[i], es[k']);
    BeforeAfterDrop(l, es[j'], es[k'], es[i].db);
  }

  lemma AgreesDrop<T>(es: seq<Entry<T>>, l: Lru<T>, i: nat)
    requires Agrees(es, l) && i < |es|
    ensures Agrees(es[..i] + es[i + 1..], Drop(l, {es[i].db}))
  {
    var db, r, d := es[i].db, es[..i] + es[i + 1..], Drop(l, {es[i].db});
    assert Holds(l, es[i]);
    DropSlots(l, db);
    forall j | 0 <= j < |r| ensures Holds(d, r[j]) {
      var j' := if j < i then j else j + 1;
      assert r[j] == es[j'] && Holds(l, es[j']);
      assert if j < i then Before(l, es[j'], es[i]) else Before(l, es[i], es[j']);
      HoldsAfterDrop(l, es[j'], db);
    }
    forall j, k | 0 <= j < k < |r| ensures Before(d, r[j], r[k]) {
      OrderAfterDrop(es, l, i, j, k);
    }
    forall k | k in d.slots ensures Has(r, k) {
      HasAfterDrop(es, i, k);
    }
  }

  lemma AgreesWithout<T>(es: seq<Entry<T>>, l: Lru<T>, db: string)
    requires Agrees(es, l)
    ensures Agrees(Without(es, db), Drop(l, {db}))
  {
    var i := IndexOf(es, db);
    if i < |es| {
      AgreesDrop(es, l, i);
    } else {
      assert !Has(es, db);
      assert l.slots - {db} == l.slots;
    }
  }

  /** Appending an entry for an absent key makes it the most recently used. */
  lemma AgreesAppend<T>(es: seq<Entry<T>>, l: Lru<T>, e: Entry<T>)
    requires Agrees(es, l) && e.db !in l.slots
    ensures Agrees(es + [e], Insert(l, e.db, e.token, e.mintedAt))
  {
    var r, m := es + [e], Insert(l, e.db, e.token, e.mintedAt);
    assert m.slots.Keys == l.slots.Keys + {e.db};
    forall j | 0 <= j < |r| ensures Holds(m, r[j]) {
      assert j < |es| ==> Holds(l, es[j]);
    }
    forall j, k | 0 <= j < k < |r| ensures Before(m, r[j], r[k]) {
      assert Holds(l, es[j]);
      assert k < |es| ==> Before(l, es[j], es[k]);
    }
    forall k | k in m.slots ensures Has(r, k) {
      if k == e.db {
        assert r[|es|].db == k;
      } else {
        assert Has(es, k);
        var j :| 0 <= j < |es| && es[j].db == k;
        assert r[j].db == k;
      }
    }
  }

  lemma InsertAfterDrop<T>(l: Lru<T>, db: string, token: T, mintedAt: real)
    ensures Insert(Drop(l, {db}), db, token, mintedAt) == Insert(l, db, token, mintedAt)
  {
  }

  /** Moving the key to the end is dropping it and inserting the same value again. */
  lemma MoveToEndAgrees<T>(es: seq<Entry<T>>, l: Lru<T>, e: Entry<T>)
    requires Agrees(es, l)
    ensures Agrees(Without(es, e.db) + [e], Insert(l, e.db, e.token, e.mintedAt))
  {
    AgreesWithout(es, l, e.db);
    AgreesAppend(Without(es, e.db), Drop(l, {e.db}), e);
    InsertAfterDrop(l, e.db, e.token, e.mintedAt);
  }

  /** Under the lock, `get_token` looks up the plain map: a fresh slot is served
      and its last use becomes now; anything else leaves the map alone. */
  lemma EnterRefinesTouch<T>(cfg: Config, c: Cache<T>, l: Lru<T>, db: string, now: real)
    requires Agrees(c.entries, l)
    ensures var (c', r) := Enter(cfg, c, db, now);
            if db in l.slots && now - l.slots[db].mintedAt < cfg.ttl then
              r == Hit(l.slots[db].token) && Agrees(c'.entries, Touch(l, db))
            else
              !r.Hit? && c'.entries == c.entries
  {
    if db in l.slots {
      assert Has(c.entries, db);
      var e := c.entries[IndexOf(c.entries, db)];
      assert Holds(l, e);
      MoveToEndAgrees(c.entries, l, e);
      assert Insert(l, db, e.token, e.mintedAt) == Touch(l, db);
    } else {
      assert forall j :: 0 <= j < |c.entries| && Holds(l, c.entries[j]) ==> c.entries[j].db in l.slots;
    }
  }

  lemma InvalidateRefinesDrop<T>(c: Cache<T>, l: Lru<T>, db: string)
    requires Agrees(c.entries, l)
    ensures Agrees(Invalidated(c, db).entries, Drop(l, {db}))
    ensures db !in Drop(l, {db}).slots
  {
    AgreesWithout(c.entries, l, db);
  }

  lemma OldestIsFirst<T>(es: seq<Entry<T>>, l: Lru<T>)
    requires Agrees(es, l) && |es| > 0
    ensures LeastRecent(l) == {es[0].db}
  {
  }

  lemma EvictOne<T>(full: seq<Entry<T>>, l: Lru<T>)
    requires Agrees(full, l) && |full| > 1
    ensures Agrees(full[1..], Drop(l, LeastRecent(l)))
  {
    assert full[..0] + full[1..] == full[1..];
    OldestIsFirst(full, l);
    AgreesDrop(full, l, 0);
  }

  /** An unflagged mint refines the map insert that drops the least recently used
      key, which is never the one just inserted; a flagged one leaves the map alone. */
  lemma PublishRefinesPut<T>(cfg: Config, c: Cache<T>, l: Lru<T>, db: string, token: T, mintedAt: real)
    requires Agrees(c.entries, l) && |c.entries| <= cfg.maxEntries && ValidConfig(cfg)
    ensures var entries := Publish(cfg, c, db, token, mintedAt).0.entries;
            var put := Put(l, cfg.maxEntries, db, token, mintedAt);
            if db in c.flagged then entries == c.entries
            else Agrees(entries, put) && db in put.slots && |entries| <= cfg.maxEntries
  {
    if db !in c.flagged {
      var e := Entry(db, token, mintedAt);
      var full, grown := Without(c.entries, db) + [e], Insert(l, db, token, mintedAt);
      MoveToEndAgrees(c.entries, l, e);
      assert |full| == |grown.slots|;
      if |full| > cfg.maxEntries {
        EvictOne(full, grown);
        assert |full| == cfg.maxEntries + 1;
        assert Holds(Put(l, cfg.maxEntries, db, token, mintedAt), full[1..][cfg.maxEntries - 1]);
      }
    }
  }
}
