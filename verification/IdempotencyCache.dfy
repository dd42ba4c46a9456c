/** The TTL cache behind idempotent writes (apps/api/src/constat_api/idempotency.py). */
module IdempotencyCache {
  import opened Wrappers

  datatype Entry = Entry(key: string, at: real, body: string)

  /** The dict in insertion order: storing under a key that is there keeps its place. */
  type Dict = seq<Entry>

  ghost predicate DistinctKeys(d: Dict) { forall i, j :: 0 <= i < j < |d| ==> d[i].key != d[j].key }

  function Find(d: Dict, key: string): (r: Option<nat>)
    ensures r.Some? ==> r.value < |d| && d[r.value].key == key
    ensures r.None? <==> forall i :: 0 <= i < |d| ==> d[i].key != key
  {
    if d == [] then None
    else if d[0].key == key then Some(0)
    else
      var rest := Find(d[1..], key);
      if rest.Some? then Some(rest.value + 1) else
        assert forall i :: 0 < i < |d| ==> d[i] == d[1..][i - 1];
        None
  }

  function Without(d: Dict, i: nat): Dict
    requires i < |d|
  {
    d[..i] + d[i + 1..]
  }

  function Stored(d: Dict, e: Entry): Dict {
    var i := Find(d, e.key);
    if i.Some? then d[i.value := e] else d + [e]
  }

  function Live(d: Dict, ttl: real, now: real): Dict {
    if d == [] then []
    else (if now - d[0].at > ttl then [] else [d[0]]) + Live(d[1..], ttl, now)
  }

  /** Oldest first until there is room for one more. */
  function Evicted(d: Dict, maxEntries: int): Dict {
    if |d| < maxEntries || d == [] then d else Evicted(d[1..], maxEntries)
  }

  // ---------------------------------------------------------------- the map it stands for

  /** The latest body put under each key, and when: never evicted, never expired. */
  type History = map<string, (real, string)>

  /** The cache only holds latest puts, each under one key, and none from the future. */
  ghost predicate Faithful(d: Dict, puts: History, clock: real) {
    && DistinctKeys(d)
    && forall i :: 0 <= i < |d| ==> d[i].key in puts && puts[d[i].key] == (d[i].at, d[i].body) && d[i].at <= clock
  }

  lemma {:induction false} LiveIsSubsequence(d: Dict, ttl: real, now: real, puts: History, clock: real)
    requires Faithful(d, puts, clock)
    ensures Faithful(Live(d, ttl, now), puts, clock)
    ensures forall i :: 0 <= i < |Live(d, ttl, now)| ==>
      Live(d, ttl, now)[i] in d && now - Live(d, ttl, now)[i].at <= ttl
    ensures |Live(d, ttl, now)| <= |d|
  {
    if d != [] {
      LiveIsSubsequence(d[1..], ttl, now, puts, clock);
      var rest := Live(d[1..], ttl, now);
      assert d == [d[0]] + d[1..];
      forall i | 0 <= i < |rest| ensures rest[i] in d && rest[i].key != d[0].key {
        assert rest[i] in d[1..];
        var k :| 0 <= k < |d[1..]| && d[1..][k] == rest[i];
        assert d[k + 1] == rest[i];
      }
    }
  }

  lemma {:induction false} EvictedFits(d: Dict, maxEntries: int, puts: History, clock: real)
    requires Faithful(d, puts, clock)
    ensures Faithful(Evicted(d, maxEntries), puts, clock)
    ensures maxEntries >= 1 ==> |Evicted(d, maxEntries)| < maxEntries
    ensures maxEntries < 1 ==> Evicted(d, maxEntries) == []
  {
    if !(|d| < maxEntries || d == []) {
      EvictedFits(d[1..], maxEntries, puts, clock);
    }
  }

  lemma StoredIsFaithful(d: Dict, puts: History, e: Entry)
    requires Faithful(d, puts, e.at)
    ensures Faithful(Stored(d, e), puts[e.key := (e.at, e.body)], e.at)
    ensures |Stored(d, e)| <= |d| + 1
    ensures Find(Stored(d, e), e.key).Some? && Stored(d, e)[Find(Stored(d, e), e.key).value] == e
  {
    var v := Stored(d, e);
    var i := Find(d, e.key);
    var k := if i.Some? then i.value else |d|;
    assert v[k] == e;
  }

  /** The expiry keeps exactly the entries within the TTL. */
  lemma {:induction false} LiveIsExact(d: Dict, ttl: real, now: real)
    ensures forall e :: e in Live(d, ttl, now) <==> e in d && now - e.at <= ttl
  {
    if d != [] {
      LiveIsExact(d[1..], ttl, now);
      assert d == [d[0]] + d[1..];
    }
  }

  /** The eviction drops the first entries, and no more than needed to leave room for one. */
  lemma {:induction false} EvictionDropsTheOldest(d: Dict, maxEntries: int)
    requires maxEntries >= 1
    ensures var k := if |d| < maxEntries then 0 else |d| - maxEntries + 1;
      Evicted(d, maxEntries) == d[k..]
  {
    if |d| >= maxEntries {
      EvictionDropsTheOldest(d[1..], maxEntries);
    }
  }

  /** With room for one more, a put keeps every other entry within the TTL, replaces its own, and
      adds nothing else. */
  lemma PutKeepsTheFresh(d: Dict, ttl: real, now: real, maxEntries: int, e: Entry, x: Entry)
    requires DistinctKeys(d) && |Live(d, ttl, now)| < maxEntries
    ensures x in Stored(Evicted(Live(d, ttl, now), maxEntries), e) <==>
      x == e || (x.key != e.key && x in d && now - x.at <= ttl)
  {
    var live := Live(d, ttl, now);
    LiveIsExact(d, ttl, now);
    LiveKeepsKeysApart(d, ttl, now);
    var i := Find(live, e.key);
    var v := Stored(live, e);
    if x in v {
      var k :| 0 <= k < |v| && v[k] == x;
      if v[k] != e { assert x == live[k]; }
    }
    if x in live && x.key != e.key {
      var k :| 0 <= k < |live| && live[k] == x;
      assert v[k] == x;
    }
    if i.Some? { assert v[i.value] == e; } else { assert v[|live|] == e; }
  }

  /** Storing under a key that is there keeps its place in the order of eviction; a new key goes
      last. Every other entry stays where it is. */
  lemma StoringKeepsThePlace(d: Dict, e: Entry, k: nat)
    requires DistinctKeys(d) && k <= |d| && (if k < |d| then d[k].key == e.key else forall i :: 0 <= i < |d| ==> d[i].key != e.key)
    ensures var v := Stored(d, e);
      && |v| == (if k < |d| then |d| else |d| + 1) && v[k] == e
      && forall i :: 0 <= i < |d| && i != k ==> v[i] == d[i]
  {
    var f := Find(d, e.key);
  }

  lemma {:induction false} LiveKeepsKeysApart(d: Dict, ttl: real, now: real)
    requires DistinctKeys(d)
    ensures DistinctKeys(Live(d, ttl, now))
  {
    if d != [] {
      LiveKeepsKeysApart(d[1..], ttl, now);
      LiveIsExact(d[1..], ttl, now);
      var rest := Live(d[1..], ttl, now);
      forall k | 0 <= k < |rest| ensures rest[k].key != d[0].key {
        assert rest[k] in d[1..];
        var m :| 0 <= m < |d[1..]| && d[1..][m] == rest[k];
        assert d[m + 1] == rest[k];
      }
    }
  }

  class Cache {
    const ttl: real
    const maxEntries: int
    var store: Dict
    ghost var puts: History
    ghost var clock: real

    /** Faithful to the history, and never above its cap. */
    ghost predicate Valid()
      reads this
    {
      Faithful(store, puts, clock) && |store| <= if maxEntries < 0 then 0 else maxEntries
    }

    constructor (ttl: real, maxEntries: int)
      ensures Valid() && store == [] && puts == map[] && this.ttl == ttl && this.maxEntries == maxEntries
    {
      this.ttl, this.maxEntries := ttl, maxEntries;
      store, puts, clock := [], map[], 0.0;
    }

    /** A hit is the latest body put under the key, and no older than the TTL; an entry that is
        there and fresh is a hit; an expired one is dropped. */
    method Get(key: string, now: real) returns (hit: Option<string>)
      requires Valid() && clock <= now
      modifies this
      ensures Valid() && puts == old(puts) && clock == now
      ensures hit.Some? ==> key in puts && puts[key].1 == hit.value && now - puts[key].0 <= ttl
      ensures hit.Some? <==> Find(old(store), key).Some? && now - old(store)[Find(old(store), key).value].at <= ttl
      ensures store == if Find(old(store), key).Some? && hit.None? then Without(old(store), Find(old(store), key).value)
                       else old(store)
    {
      clock := now;
      var i := Find(store, key);
      if i.None? {
        return None;
      }
      var e := store[i.value];
      if now - e.at > ttl {
        store := Without(store, i.value);
        return None;
      }
      return Some(e.body);
    }

    /** Drops what expired, evicts the oldest until there is room, stores. With a cap below one
        there is never room: the eviction runs out of entries and the call fails. */
    method Put(key: string, body: string, now: real) returns (stored: bool)
      requires Valid() && clock <= now
      modifies this
      ensures Valid() && clock == now
      ensures stored <==> maxEntries >= 1
      ensures stored ==> store == Stored(Evicted(Live(old(store), ttl, now), maxEntries), Entry(key, now, body))
      ensures stored ==> puts == old(puts)[key := (now, body)]
      ensures !stored ==> store == [] && puts == old(puts)
      ensures stored && ttl >= 0.0 ==>
        Find(store, key).Some? && store[Find(store, key).value] == Entry(key, now, body)
    {
      LiveIsSubsequence(store, ttl, now, puts, now);
      DropExpired(now);
      EvictedFits(store, maxEntries, puts, now);
      clock := now;
      while |store| >= maxEntries
        invariant puts == old(puts) && clock == now
        invariant Evicted(store, maxEntries) == Evicted(Live(old(store), ttl, now), maxEntries)
        decreases |store|
      {
        if store == [] {
          return false;
        }
        store := store[1..];
      }
      assert store == Evicted(Live(old(store), ttl, now), maxEntries);
      StoredIsFaithful(store, puts, Entry(key, now, body));
      store := Stored(store, Entry(key, now, body));
      puts := puts[key := (now, body)];
      return true;
    }

    method DropExpired(now: real)
      modifies `store
      ensures store == Live(old(store), ttl, now)
    {
      var kept: Dict := [];
      for i := 0 to |store|
        invariant store == old(store)
        invariant kept + Live(store[i..], ttl, now) == Live(store, ttl, now)
      {
        assert store[i..][1..] == store[i + 1..] && store[i..][0] == store[i];
        if now - store[i].at <= ttl { kept := kept + [store[i]]; }
      }
      store := kept;
    }

    method Clear()
      requires Valid()
      modifies `store
      ensures Valid() && store == []
    {
      store := [];
    }
  }

  /** A put makes the next get of the key a hit with its body, for as long as the TTL. */
  method PutThenGet(c: Cache, key: string, body: string, now: real, later: real) returns (hit: Option<string>)
    requires c.Valid() && c.clock <= now <= later && later - now <= c.ttl && c.maxEntries >= 1
    modifies c
    ensures c.Valid() && hit == Some(body)
  {
    var stored := c.Put(key, body, now);
    hit := c.Get(key, later);
  }

  // ---------------------------------------------------------------- namespaced keys

  function CacheKey(scope: string, key: string): string { scope + ":" + key }

  lemma ColonEndsScope(scope: string, key: string)
    requires ':' !in scope
    ensures |scope| < |CacheKey(scope, key)| && CacheKey(scope, key)[|scope|] == ':'
    ensures forall i :: 0 <= i < |scope| ==> CacheKey(scope, key)[i] != ':'
    ensures CacheKey(scope, key)[..|scope|] == scope && CacheKey(scope, key)[|scope| + 1..] == key
  {
    forall i | 0 <= i < |scope| ensures CacheKey(scope, key)[i] != ':' {
      assert CacheKey(scope, key)[i] == scope[i] && scope[i] in scope;
    }
  }

  /** Scopes without a colon, as the endpoints use, never share an entry. */
  lemma ScopesDoNotCollide(s1: string, k1: string, s2: string, k2: string)
    requires ':' !in s1 && ':' !in s2
    ensures CacheKey(s1, k1) == CacheKey(s2, k2) <==> s1 == s2 && k1 == k2
  {
    ColonEndsScope(s1, k1);
    ColonEndsScope(s2, k2);
    if CacheKey(s1, k1) == CacheKey(s2, k2) {
      assert |s1| == |s2|;
    }
  }

  /** With colons in scopes the promise fails: two different pairs can meet. */
  lemma ColonInScopeCollides()
    ensures CacheKey("a:b", "c") == CacheKey("a", "b:c")
  {
  }

  /** Two scopes share some entry exactly when they are equal or one, followed by a colon, starts
      the other. */
  lemma ScopesCollideExactlyWhen(s1: string, s2: string)
    ensures (exists k1, k2 :: CacheKey(s1, k1) == CacheKey(s2, k2)) <==> s1 == s2 || s1 + ":" <= s2 || s2 + ":" <= s1
  {
    forall k1, k2 | CacheKey(s1, k1) == CacheKey(s2, k2) ensures s1 == s2 || s1 + ":" <= s2 || s2 + ":" <= s1 {
      SharedEntry(s1, k1, s2, k2);
    }
    if s1 == s2 {
      assert CacheKey(s1, "") == CacheKey(s2, "");
    } else if s1 + ":" <= s2 {
      assert CacheKey(s1, s2[|s1| + 1..] + ":") == CacheKey(s2, "");
    } else if s2 + ":" <= s1 {
      assert CacheKey(s1, "") == CacheKey(s2, s1[|s2| + 1..] + ":");
    }
  }

  lemma SharedEntry(s1: string, k1: string, s2: string, k2: string)
    requires CacheKey(s1, k1) == CacheKey(s2, k2)
    ensures s1 == s2 || s1 + ":" <= s2 || s2 + ":" <= s1
  {
    var c := CacheKey(s1, k1);
    assert c[..|s1| + 1] == s1 + ":" && c[..|s2| + 1] == s2 + ":";
    if |s1| == |s2| {
      assert s1 == c[..|s1|] == s2;
    } else if |s1| < |s2| {
      assert s2 == c[..|s2|];
      assert s2[..|s1| + 1] == c[..|s1| + 1];
    } else {
      assert s1 == c[..|s1|];
      assert s1[..|s2| + 1] == c[..|s2| + 1];
    }
  }
}
