/** The LRU cache with per-entry expiry. The ordered dictionary is a sequence of
    entries with distinct keys, least recently used first. */
module BoundedCache {
  import opened Basics
  import opened Wrappers

  datatype Entry<V> = Entry(key: string, value: V, expiresAt: real)

  function Keys<V>(c: seq<Entry<V>>): set<string> {
    if c == [] then {} else {c[0].key} + Keys(c[1..])
  }

  ghost predicate Unique<V>(c: seq<Entry<V>>) {
    c != [] ==> c[0].key !in Keys(c[1..]) && Unique(c[1..])
  }

  function Lookup<V>(c: seq<Entry<V>>, key: string): Option<Entry<V>> {
    if c == [] then None
    else if c[0].key == key then Some(c[0])
    else Lookup(c[1..], key)
  }

  function Without<V>(c: seq<Entry<V>>, key: string): seq<Entry<V>> {
    if c == [] then []
    else if c[0].key == key then Without(c[1..], key)
    else [c[0]] + Without(c[1..], key)
  }

  function Unexpired<V>(c: seq<Entry<V>>, now: real): seq<Entry<V>> {
    if c == [] then []
    else if c[0].expiresAt < now then Unexpired(c[1..], now)
    else [c[0]] + Unexpired(c[1..], now)
  }

  /** Dropping the oldest entries until at most `maxSize` are left; with a negative
      bound nothing can be left. */
  function Evicted<V>(c: seq<Entry<V>>, maxSize: int): seq<Entry<V>> {
    if |c| <= maxSize then c
    else if maxSize < 0 then []
    else c[|c| - maxSize..]
  }

  function Inserted<V>(c: seq<Entry<V>>, e: Entry<V>, maxSize: int): seq<Entry<V>> {
    Evicted(Without(c, e.key) + [e], maxSize)
  }

  function Answer<V>(c: seq<Entry<V>>, key: string, now: real): Option<V> {
    match Lookup(c, key)
    case None => None
    case Some(e) => if e.expiresAt < now then None else Some(e.value)
  }

  /** Looking a key up drops it when expired and makes it most recent otherwise. */
  function Touched<V>(c: seq<Entry<V>>, key: string, now: real): seq<Entry<V>> {
    match Lookup(c, key)
    case None => c
    case Some(e) => if e.expiresAt < now then Without(c, key) else Without(c, key) + [e]
  }

  /** A lookup of an expired entry removes it, so it takes no room from then on. */
  lemma ExpiredLookupRemoves<V>(c: seq<Entry<V>>, key: string, now: real)
    requires Unique(c) && Lookup(c, key).Some? && Lookup(c, key).value.expiresAt < now
    ensures Answer(c, key, now).None? && Keys(Touched(c, key, now)) == Keys(c) - {key}
    ensures |Touched(c, key, now)| == |c| - 1
  {
    LookupFacts(c, key);
    WithoutFacts(c, key);
  }

  lemma EvictOne<V>(c: seq<Entry<V>>, maxSize: int)
    requires c != [] && |c| > maxSize
    ensures Evicted(c[1..], maxSize) == Evicted(c, maxSize)
  {
    if 0 <= maxSize < |c| - 1 {
      assert c[1..][|c| - 1 - maxSize..] == c[|c| - maxSize..];
    }
  }

  datatype EvictionError = NothingToEvict

  class Cache<V> {
    const maxSize: int
    const ttlSeconds: int
    var cache: seq<Entry<V>>
    var hits: nat
    var misses: nat

    ghost predicate Valid()
      reads this
    {
      Unique(cache) && (cache == [] || |cache| <= maxSize)
    }

    constructor (maxSize: int, ttlSeconds: int)
      ensures Valid() && cache == [] && hits == 0 && misses == 0
      ensures this.maxSize == maxSize && this.ttlSeconds == ttlSeconds
    {
      this.maxSize := maxSize;
      this.ttlSeconds := ttlSeconds;
      cache := [];
      hits, misses := 0, 0;
    }

    method Get(key: string, now: real) returns (value: Option<V>)
      requires Valid()
      modifies this
      ensures Valid()
      ensures value == Answer(old(cache), key, now)
      ensures cache == Apply(old(cache), Op.Get(key, now), maxSize, ttlSeconds)
      ensures hits == old(hits) + (if value.Some? then 1 else 0)
      ensures misses == old(misses) + (if value.Some? then 0 else 1)
    {
      WithoutFacts(cache, key);
      var found := Lookup(cache, key);
      if found.None? {
        misses := misses + 1;
        return None;
      }
      if found.value.expiresAt < now {
        cache := Without(cache, key);
        misses := misses + 1;
        return None;
      }
      LookupFacts(cache, key);
      AppendUnique(Without(cache, key), found.value);
      cache := Without(cache, key) + [found.value];
      hits := hits + 1;
      return Some(found.value.value);
    }

    /** With a negative bound the eviction loop runs out of entries and fails. */
    method Set(key: string, value: V, ttl: Option<int>, now: real) returns (r: Result<(), EvictionError>)
      requires Valid()
      modifies this
      ensures Valid()
      ensures cache == Apply(old(cache), Op.Set(key, value, ttl, now), maxSize, ttlSeconds)
      ensures r.Failure? <==> maxSize < 0
      ensures hits == old(hits) && misses == old(misses)
    {
      var entry := Entry(key, value, now + ttl.GetOr(ttlSeconds) as real);
      WithoutFacts(cache, key);
      AppendUnique(Without(cache, key), entry);
      cache := Without(cache, key) + [entry];
      r := Evict();
    }

    /** The eviction loop of `Set`: the oldest entry goes while there are too many. */
    method Evict() returns (r: Result<(), EvictionError>)
      requires Unique(cache)
      modifies this`cache
      ensures Valid()
      ensures cache == Evicted(old(cache), maxSize)
      ensures r.Failure? <==> maxSize < 0
    {
      ghost var full := cache;
      while |cache| > maxSize
        invariant Unique(cache) && Evicted(cache, maxSize) == Evicted(full, maxSize)
        decreases |cache|
      {
        if cache == [] {
          return Failure(NothingToEvict);
        }
        EvictOne(cache, maxSize);
        cache := cache[1..];
      }
      return Success(());
    }

    method Delete(key: string) returns (found: bool)
      requires Valid()
      modifies this
      ensures Valid()
      ensures found <==> key in Keys(old(cache))
      ensures cache == Apply(old(cache), Op.Delete(key), maxSize, ttlSeconds)
      ensures hits == old(hits) && misses == old(misses)
    {
      WithoutFacts(cache, key);
      LookupFacts(cache, key);
      if Lookup(cache, key).Some? {
        cache := Without(cache, key);
        return true;
      }
      return false;
    }

    method Clear() returns (count: nat)
      modifies this
      ensures Valid() && cache == Apply(old(cache), Op.Clear, maxSize, ttlSeconds) && count == |old(cache)|
      ensures hits == old(hits) && misses == old(misses)
    {
      count := |cache|;
      cache := [];
    }

    method Cleanup(now: real) returns (count: nat)
      requires Valid()
      modifies this
      ensures Valid()
      ensures cache == Unexpired(old(cache), now)
      ensures count == |old(cache)| - |cache|
      ensures hits == old(hits) && misses == old(misses)
    {
      ghost var all := cache;
      var expiredKeys := [];
      for i := 0 to |cache|
        invariant cache == all && hits == old(hits) && misses == old(misses)
        invariant expiredKeys == ExpiredKeys(all[..i], now)
      {
        assert all[..i + 1] == all[..i] + [all[i]];
        ExpiredKeysAppend(all[..i], all[i], now);
        if cache[i].expiresAt < now {
          expiredKeys := expiredKeys + [cache[i].key];
        }
      }
      assert all[..|all|] == all;
      for i := 0 to |expiredKeys|
        invariant Unique(cache) && |cache| <= |all|
        invariant cache == WithoutAll(all, expiredKeys[..i])
        invariant hits == old(hits) && misses == old(misses)
      {
        WithoutFacts(cache, expiredKeys[i]);
        assert expiredKeys[..i + 1] == expiredKeys[..i] + [expiredKeys[i]];
        cache := Without(cache, expiredKeys[i]);
      }
      assert expiredKeys[..|expiredKeys|] == expiredKeys;
      RemovingExpiredKeys(all, now);
      count := |expiredKeys|;
    }
  }

  // ---- the cleanup loop ----

  ghost function ExpiredKeys<V>(c: seq<Entry<V>>, now: real): seq<string> {
    if c == [] then []
    else if c[0].expiresAt < now then [c[0].key] + ExpiredKeys(c[1..], now)
    else ExpiredKeys(c[1..], now)
  }

  ghost function WithoutAll<V>(c: seq<Entry<V>>, keys: seq<string>): seq<Entry<V>> {
    if keys == [] then c
    else Without(WithoutAll(c, keys[..|keys| - 1]), keys[|keys| - 1])
  }

  lemma {:induction false} ExpiredKeysAppend<V>(c: seq<Entry<V>>, e: Entry<V>, now: real)
    ensures ExpiredKeys(c + [e], now) == ExpiredKeys(c, now) + (if e.expiresAt < now then [e.key] else [])
  {
    if c != [] {
      assert (c + [e])[1..] == c[1..] + [e];
      ExpiredKeysAppend(c[1..], e, now);
    } else {
      assert (c + [e])[1..] == [];
    }
  }

  ghost predicate InKeys(key: string, keys: seq<string>) {
    key in keys
  }

  lemma {:induction false} WithoutAllHead<V>(e: Entry<V>, c: seq<Entry<V>>, keys: seq<string>)
    ensures WithoutAll([e] + c, keys)
         == if InKeys(e.key, keys) then WithoutAll(c, keys) else [e] + WithoutAll(c, keys)
  {
    if keys != [] {
      var n := |keys| - 1;
      WithoutAllHead(e, c, keys[..n]);
      assert keys == keys[..n] + [keys[n]];
      var rest := WithoutAll(c, keys[..n]);
      assert ([e] + rest)[1..] == rest;
    }
  }

  lemma {:induction false} WithoutAllAbsent<V>(c: seq<Entry<V>>, keys: seq<string>, key: string)
    requires key !in Keys(c)
    ensures WithoutAll(c, [key] + keys) == WithoutAll(c, keys)
  {
    if keys == [] {
      WithoutFacts(c, key);
      assert ([key] + keys)[..0] == [];
      assert WithoutAll(c, [key]) == Without(WithoutAll(c, []), key);
    } else {
      var n := |keys| - 1;
      assert ([key] + keys)[..n + 1] == [key] + keys[..n];
      WithoutAllAbsent(c, keys[..n], key);
    }
  }

  lemma {:induction false} ExpiredKeysAreKeys<V>(c: seq<Entry<V>>, now: real)
    ensures forall key :: InKeys(key, ExpiredKeys(c, now)) ==> key in Keys(c)
  {
    if c != [] {
      ExpiredKeysAreKeys(c[1..], now);
    }
  }

  lemma {:induction false} RemovingExpiredKeys<V>(c: seq<Entry<V>>, now: real)
    requires Unique(c)
    ensures WithoutAll(c, ExpiredKeys(c, now)) == Unexpired(c, now)
    ensures |ExpiredKeys(c, now)| == |c| - |Unexpired(c, now)|
  {
    if c != [] {
      RemovingExpiredKeys(c[1..], now);
      ExpiredKeysAreKeys(c[1..], now);
      assert c == [c[0]] + c[1..];
      WithoutAllHead(c[0], c[1..], ExpiredKeys(c, now));
      if c[0].expiresAt < now {
        WithoutAllAbsent(c[1..], ExpiredKeys(c[1..], now), c[0].key);
      }
    }
  }

  // ---- basic facts ----

  lemma {:induction false} WithoutFacts<V>(c: seq<Entry<V>>, key: string)
    ensures Keys(Without(c, key)) == Keys(c) - {key}
    ensures Unique(c) ==> Unique(Without(c, key))
    ensures key !in Keys(c) ==> Without(c, key) == c
    ensures |Without(c, key)| <= |c|
    ensures Unique(c) && key in Keys(c) ==> |Without(c, key)| == |c| - 1
  {
    if c != [] {
      WithoutFacts(c[1..], key);
      if c[0].key != key {
        assert Without(c, key)[1..] == Without(c[1..], key);
      }
    }
  }

  lemma {:induction false} LookupFacts<V>(c: seq<Entry<V>>, key: string)
    ensures Lookup(c, key).Some? <==> key in Keys(c)
    ensures Lookup(c, key).Some? ==> Lookup(c, key).value.key == key
  {
    if c != [] {
      LookupFacts(c[1..], key);
    }
  }

  lemma {:induction false} AppendUnique<V>(c: seq<Entry<V>>, e: Entry<V>)
    ensures Keys(c + [e]) == Keys(c) + {e.key}
    ensures Unique(c) && e.key !in Keys(c) ==> Unique(c + [e])
  {
    if c == [] {
      assert (c + [e])[1..] == [];
    } else {
      assert (c + [e])[1..] == c[1..] + [e];
      AppendUnique(c[1..], e);
    }
  }

  // ---- runs ----

  datatype Op<V> =
    | Get(key: string, now: real)
    | Set(key: string, value: V, ttl: Option<int>, now: real)
    | Delete(key: string)
    | Clear
    | Cleanup(now: real)

  function EntryFor<V>(op: Op<V>, ttlSeconds: int): Entry<V>
    requires op.Set?
  {
    Entry(op.key, op.value, op.now + op.ttl.GetOr(ttlSeconds) as real)
  }

  ghost function Apply<V>(c: seq<Entry<V>>, op: Op<V>, maxSize: int, ttlSeconds: int): seq<Entry<V>> {
    match op
    case Get(key, now) => Touched(c, key, now)
    case Set(_, _, _, _) => Inserted(c, EntryFor(op, ttlSeconds), maxSize)
    case Delete(key) => Without(c, key)
    case Clear => []
    case Cleanup(now) => Unexpired(c, now)
  }

  ghost function Run<V>(ops: seq<Op<V>>, maxSize: int, ttlSeconds: int): seq<Entry<V>> {
    if ops == [] then []
    else Apply(Run(ops[..|ops| - 1], maxSize, ttlSeconds), ops[|ops| - 1], maxSize, ttlSeconds)
  }

  // ---- the inclusion property ----

  /** The entries of `l` whose keys are in `keys`, in order. */
  ghost function Only<V>(l: seq<Entry<V>>, keys: set<string>): seq<Entry<V>> {
    if l == [] then []
    else if l[0].key in keys then [l[0]] + Only(l[1..], keys)
    else Only(l[1..], keys)
  }

  /** `s` is a part of `l`: the same values and expiries, in the same order. */
  ghost predicate PartOf<V>(s: seq<Entry<V>>, l: seq<Entry<V>>) {
    s == Only(l, Keys(s))
  }

  lemma {:induction false} OnlyKeys<V>(l: seq<Entry<V>>, keys: set<string>)
    ensures Keys(Only(l, keys)) == Keys(l) * keys
    ensures Unique(l) ==> Unique(Only(l, keys))
    ensures |Only(l, keys)| <= |l|
  {
    if l != [] {
      OnlyKeys(l[1..], keys);
    }
  }

  lemma {:induction false} OnlyWithout<V>(l: seq<Entry<V>>, keys: set<string>, key: string)
    ensures Without(Only(l, keys), key) == Only(l, keys - {key})
    ensures Only(Without(l, key), keys) == Only(l, keys - {key})
  {
    if l != [] {
      OnlyWithout(l[1..], keys, key);
      assert l[0].key in keys ==> Only(l, keys)[1..] == Only(l[1..], keys);
      assert l[0].key != key ==> Without(l, key)[1..] == Without(l[1..], key);
    }
  }

  lemma {:induction false} OnlyAppend<V>(l: seq<Entry<V>>, e: Entry<V>, keys: set<string>)
    ensures Only(l + [e], keys) == if e.key in keys then Only(l, keys) + [e] else Only(l, keys)
  {
    if l == [] {
      assert (l + [e])[1..] == [];
    } else {
      assert (l + [e])[1..] == l[1..] + [e];
      OnlyAppend(l[1..], e, keys);
    }
  }

  lemma {:induction false} OnlyUnexpired<V>(l: seq<Entry<V>>, keys: set<string>, now: real)
    ensures Unexpired(Only(l, keys), now) == Only(Unexpired(l, now), keys)
  {
    if l != [] {
      OnlyUnexpired(l[1..], keys, now);
      assert l[0].key in keys ==> Only(l, keys)[1..] == Only(l[1..], keys);
      assert l[0].expiresAt >= now ==> Unexpired(l, now)[1..] == Unexpired(l[1..], now);
    }
  }

  lemma {:induction false} OnlySameKeys<V>(l: seq<Entry<V>>, a: set<string>, b: set<string>)
    requires Keys(l) * a == Keys(l) * b
    ensures Only(l, a) == Only(l, b)
  {
    if l != [] {
      assert l[0].key in a <==> l[0].key in b by {
        assert l[0].key in a <==> l[0].key in Keys(l) * a;
        assert l[0].key in b <==> l[0].key in Keys(l) * b;
      }
      assert Keys(l[1..]) * a == Keys(l[1..]) * b by {
        forall k | k in Keys(l[1..])
          ensures k in a <==> k in b
        {
          assert k in Keys(l);
          assert k in a <==> k in Keys(l) * a;
          assert k in b <==> k in Keys(l) * b;
        }
      }
      OnlySameKeys(l[1..], a, b);
    }
  }

  lemma {:induction false} LookupOnly<V>(l: seq<Entry<V>>, keys: set<string>, key: string)
    ensures Lookup(Only(l, keys), key) == if key in keys then Lookup(l, key) else None
  {
    if l != [] {
      LookupOnly(l[1..], keys, key);
      assert l[0].key in keys ==> Only(l, keys)[1..] == Only(l[1..], keys);
    }
  }

  lemma {:induction false} UnexpiredFacts<V>(c: seq<Entry<V>>, now: real)
    ensures Keys(Unexpired(c, now)) <= Keys(c) && |Unexpired(c, now)| <= |c|
    ensures Unique(c) ==> Unique(Unexpired(c, now))
  {
    if c != [] {
      UnexpiredFacts(c[1..], now);
    }
  }

  /** Removing a key from both. */
  lemma PartOfWithout<V>(s: seq<Entry<V>>, l: seq<Entry<V>>, key: string)
    requires PartOf(s, l)
    ensures PartOf(Without(s, key), Without(l, key))
    ensures PartOf(Without(s, key), l)
    ensures key !in Keys(s) ==> PartOf(s, Without(l, key))
  {
    var keys := Keys(s);
    WithoutFacts(s, key);
    OnlyWithout(l, keys, key);
    OnlyWithout(l, keys - {key}, key);
    assert keys - {key} - {key} == keys - {key};
    assert key !in keys ==> keys - {key} == keys;
  }

  /** Appending an entry, new to both, to both, or to the larger only. */
  lemma PartOfAppend<V>(s: seq<Entry<V>>, l: seq<Entry<V>>, e: Entry<V>)
    requires PartOf(s, l) && e.key !in Keys(l)
    ensures PartOf(s + [e], l + [e])
    ensures PartOf(s, l + [e])
  {
    AppendUnique(s, e);
    OnlyKeys(l, Keys(s));
    OnlyAppend(l, e, Keys(s + [e]));
    OnlyAppend(l, e, Keys(s));
    assert Keys(l) * Keys(s + [e]) == Keys(l) * Keys(s);
    OnlySameKeys(l, Keys(s + [e]), Keys(s));
  }

  lemma TailIsWithoutHead<V>(c: seq<Entry<V>>)
    requires c != [] && Unique(c)
    ensures c[1..] == Without(c, c[0].key)
  {
    WithoutFacts(c[1..], c[0].key);
  }

  /** The counting invariant: a cache of capacity `m` holds at most `m - n` keys that
      the cache of capacity `n` does not. */
  ghost predicate Included<V>(s: seq<Entry<V>>, l: seq<Entry<V>>, n: int, m: int) {
    && Unique(s) && Unique(l) && PartOf(s, l)
    && (s == [] || |s| <= n) && (l == [] || |l| <= m)
    && |l| - |s| <= m - n
  }

  lemma EvictionKeepsInclusion<V>(s: seq<Entry<V>>, l: seq<Entry<V>>, n: nat, m: nat)
    requires Unique(s) && Unique(l) && PartOf(s, l) && n <= m
    requires |s| <= n + 1 && |l| <= m + 1 && |l| - |s| <= m - n
    ensures Included(Evicted(s, n), Evicted(l, m), n, m)
  {
    OnlyKeys(l, Keys(s));
    if |s| == n + 1 {
      TailIsWithoutHead(s);
      PartOfWithout(s, l, s[0].key);
    }
    var s' := Evicted(s, n);
    if |l| == m + 1 {
      TailIsWithoutHead(l);
      if l[0].key in Keys(s) {
        assert s[0] == l[0];
      }
      WithoutFacts(s, l[0].key);
      PartOfWithout(s', l, l[0].key);
    }
  }

  lemma InsertionKeepsInclusion<V>(s: seq<Entry<V>>, l: seq<Entry<V>>, e: Entry<V>, n: int, m: int)
    requires Included(s, l, n, m) && n <= m
    ensures Included(Inserted(s, e, n), Inserted(l, e, m), n, m)
  {
    WithoutFacts(s, e.key);
    WithoutFacts(l, e.key);
    OnlyKeys(l, Keys(s));
    PartOfWithout(s, l, e.key);
    var s', l' := Without(s, e.key), Without(l, e.key);
    PartOfAppend(s', l', e);
    AppendUnique(s', e);
    AppendUnique(l', e);
    if n >= 0 {
      EvictionKeepsInclusion(s' + [e], l' + [e], n, m);
    } else {
      EvictedUnique(l' + [e], m);
      OnlyNothing(Inserted(l, e, m));
    }
  }

  lemma {:induction false} OnlyNothing<V>(l: seq<Entry<V>>)
    ensures PartOf([], l)
  {
    if l != [] {
      OnlyNothing(l[1..]);
    }
  }

  lemma {:induction false} EvictedUnique<V>(c: seq<Entry<V>>, maxSize: int)
    requires Unique(c)
    ensures Unique(Evicted(c, maxSize))
    decreases |c|
  {
    if |c| > maxSize && maxSize >= 0 && |c| - maxSize > 1 {
      EvictedUnique(c[1..], maxSize);
      assert Evicted(c[1..], maxSize) == Evicted(c, maxSize);
    }
  }

  lemma TouchKeepsInclusion<V>(s: seq<Entry<V>>, l: seq<Entry<V>>, key: string, now: real, n: int, m: int)
    requires Included(s, l, n, m) && n <= m
    ensures Included(Touched(s, key, now), Touched(l, key, now), n, m)
  {
    LookupFacts(s, key);
    LookupFacts(l, key);
    LookupOnly(l, Keys(s), key);
    OnlyKeys(l, Keys(s));
    WithoutFacts(s, key);
    WithoutFacts(l, key);
    PartOfWithout(s, l, key);
    if key in Keys(l) {
      var e := Lookup(l, key).value;
      PartOfAppend(Without(s, key), Without(l, key), e);
      AppendUnique(Without(s, key), e);
      AppendUnique(Without(l, key), e);
    }
  }

  lemma ApplyKeepsInclusion<V>(s: seq<Entry<V>>, l: seq<Entry<V>>, op: Op<V>, n: int, m: int, ttlSeconds: int)
    requires Included(s, l, n, m) && n <= m
    ensures Included(Apply(s, op, n, ttlSeconds), Apply(l, op, m, ttlSeconds), n, m)
  {
    match op
    case Get(key, now) => TouchKeepsInclusion(s, l, key, now, n, m);
    case Set(_, _, _, _) => InsertionKeepsInclusion(s, l, EntryFor(op, ttlSeconds), n, m);
    case Delete(key) =>
      OnlyKeys(l, Keys(s));
      WithoutFacts(s, key);
      WithoutFacts(l, key);
      PartOfWithout(s, l, key);
    case Clear =>
    case Cleanup(now) => CleanupKeepsInclusion(s, l, now, n, m);
  }

  lemma CleanupKeepsInclusion<V>(s: seq<Entry<V>>, l: seq<Entry<V>>, now: real, n: int, m: int)
    requires Included(s, l, n, m)
    ensures Included(Unexpired(s, now), Unexpired(l, now), n, m)
  {
    var keys := Keys(s);
    OnlyUnexpired(l, keys, now);
    UnexpiredFacts(s, now);
    UnexpiredFacts(l, now);
    OnlyKeys(Unexpired(l, now), keys);
    OnlySameKeys(Unexpired(l, now), keys, Keys(Unexpired(s, now)));
    ExpiredCounts(l, keys, now);
  }

  /** Cleaning a part drops no more entries than cleaning the whole. */
  lemma {:induction false} ExpiredCounts<V>(l: seq<Entry<V>>, keys: set<string>, now: real)
    ensures |Only(l, keys)| - |Unexpired(Only(l, keys), now)| <= |l| - |Unexpired(l, now)|
  {
    if l != [] {
      ExpiredCounts(l[1..], keys, now);
      assert l[0].key in keys ==> Only(l, keys)[1..] == Only(l[1..], keys);
    }
  }

  /** The stack property: on every run, the smaller cache is a part of the larger. */
  lemma {:induction false} SmallerIsPartOfLarger<V>(ops: seq<Op<V>>, n: int, m: int, ttlSeconds: int)
    requires n <= m
    ensures Included(Run(ops, n, ttlSeconds), Run(ops, m, ttlSeconds), n, m)
  {
    if ops != [] {
      var k := |ops| - 1;
      SmallerIsPartOfLarger(ops[..k], n, m, ttlSeconds);
      ApplyKeepsInclusion(Run(ops[..k], n, ttlSeconds), Run(ops[..k], m, ttlSeconds), ops[k], n, m, ttlSeconds);
    }
  }

  /** So a larger cache never misses where a smaller one hits, and gives the same value. */
  lemma LargerNeverMissesMore<V>(ops: seq<Op<V>>, n: int, m: int, ttlSeconds: int, key: string, now: real)
    requires n <= m
    ensures
      var small, large := Answer(Run(ops, n, ttlSeconds), key, now), Answer(Run(ops, m, ttlSeconds), key, now);
      small.Some? ==> large == small
  {
    SmallerIsPartOfLarger(ops, n, m, ttlSeconds);
    LookupOnly(Run(ops, m, ttlSeconds), Keys(Run(ops, n, ttlSeconds)), key);
  }

  lemma SizeNeverExceedsBound<V>(ops: seq<Op<V>>, n: int, ttlSeconds: int)
    ensures |Run(ops, n, ttlSeconds)| <= if n < 0 then 0 else n
    ensures Unique(Run(ops, n, ttlSeconds))
  {
    SmallerIsPartOfLarger(ops, n, n, ttlSeconds);
  }

  // ---- the unbounded dictionary ----

  type Dictionary<V> = map<string, Entry<V>>

  ghost function DictionaryAfter<V>(ops: seq<Op<V>>, ttlSeconds: int): Dictionary<V> {
    if ops == [] then map[]
    else
      var before := DictionaryAfter(ops[..|ops| - 1], ttlSeconds);
      var op := ops[|ops| - 1];
      match op
      case Get(_, _) => before
      case Set(key, _, _, _) => before[key := EntryFor(op, ttlSeconds)]
      case Delete(key) => before - {key}
      case Clear => map[]
      case Cleanup(_) => before
  }

  ghost function DictionaryAnswer<V>(d: Dictionary<V>, key: string, now: real): Option<V> {
    if key in d && d[key].expiresAt >= now then Some(d[key].value) else None
  }

  /** Every entry of the cache is the dictionary's entry for its key. */
  ghost predicate Backed<V>(c: seq<Entry<V>>, d: Dictionary<V>) {
    c != [] ==> c[0].key in d && d[c[0].key] == c[0] && Backed(c[1..], d)
  }

  lemma {:induction false} BackedLookup<V>(c: seq<Entry<V>>, d: Dictionary<V>, key: string)
    requires Backed(c, d)
    ensures Lookup(c, key).Some? ==> key in d && d[key] == Lookup(c, key).value
  {
    if c != [] {
      BackedLookup(c[1..], d, key);
    }
  }

  lemma {:induction false} BackedWithout<V>(c: seq<Entry<V>>, d: Dictionary<V>, d': Dictionary<V>, key: string)
    requires Backed(c, d)
    requires forall k :: k in d && k != key ==> k in d' && d'[k] == d[k]
    ensures Backed(Without(c, key), d')
  {
    if c != [] {
      BackedWithout(c[1..], d, d', key);
      assert c[0].key != key ==> Without(c, key)[1..] == Without(c[1..], key);
    }
  }

  lemma {:induction false} BackedAppend<V>(c: seq<Entry<V>>, e: Entry<V>, d: Dictionary<V>)
    requires Backed(c, d) && e.key in d && d[e.key] == e
    ensures Backed(c + [e], d)
  {
    if c == [] {
      assert (c + [e])[1..] == [];
    } else {
      assert (c + [e])[1..] == c[1..] + [e];
      BackedAppend(c[1..], e, d);
    }
  }

  lemma {:induction false} BackedSuffix<V>(c: seq<Entry<V>>, d: Dictionary<V>, i: nat)
    requires Backed(c, d) && i <= |c|
    ensures Backed(c[i..], d)
  {
    if i > 0 {
      BackedSuffix(c[1..], d, i - 1);
      assert c[1..][i - 1..] == c[i..];
    }
  }

  lemma {:induction false} BackedUnexpired<V>(c: seq<Entry<V>>, d: Dictionary<V>, now: real)
    requires Backed(c, d)
    ensures Backed(Unexpired(c, now), d)
  {
    if c != [] {
      BackedUnexpired(c[1..], d, now);
      assert c[0].expiresAt >= now ==> Unexpired(c, now)[1..] == Unexpired(c[1..], now);
    }
  }

  lemma {:induction false} CacheIsBacked<V>(ops: seq<Op<V>>, n: int, ttlSeconds: int)
    ensures Backed(Run(ops, n, ttlSeconds), DictionaryAfter(ops, ttlSeconds))
  {
    if ops != [] {
      var k := |ops| - 1;
      CacheIsBacked(ops[..k], n, ttlSeconds);
      var c, d := Run(ops[..k], n, ttlSeconds), DictionaryAfter(ops[..k], ttlSeconds);
      match ops[k]
      case Get(key, now) =>
        BackedLookup(c, d, key);
        BackedWithout(c, d, d, key);
        LookupFacts(c, key);
        if Lookup(c, key).Some? {
          BackedAppend(Without(c, key), Lookup(c, key).value, d);
        }
      case Set(key, _, _, _) =>
        var e := EntryFor(ops[k], ttlSeconds);
        BackedWithout(c, d, d[key := e], key);
        BackedAppend(Without(c, key), e, d[key := e]);
        var full := Without(c, key) + [e];
        if |full| > n && n >= 0 {
          BackedSuffix(full, d[key := e], |full| - n);
        }
      case Delete(key) => BackedWithout(c, d, d - {key}, key);
      case Clear =>
      case Cleanup(now) => BackedUnexpired(c, d, now);
    }
  }

  /** Every hit is the unbounded dictionary's answer, at every clock reading. */
  lemma HitsAreRight<V>(ops: seq<Op<V>>, n: int, ttlSeconds: int, key: string, now: real)
    ensures
      var hit := Answer(Run(ops, n, ttlSeconds), key, now);
      hit.Some? ==> hit == DictionaryAnswer(DictionaryAfter(ops, ttlSeconds), key, now)
  {
    CacheIsBacked(ops, n, ttlSeconds);
    BackedLookup(Run(ops, n, ttlSeconds), DictionaryAfter(ops, ttlSeconds), key);
  }

  // ---- when nothing need be evicted ----

  ghost function KeysSet<V>(ops: seq<Op<V>>): set<string> {
    if ops == [] then {}
    else
      var op := ops[|ops| - 1];
      KeysSet(ops[..|ops| - 1]) + (if op.Set? then {op.key} else {})
  }

  /** The latest clock reading at which expired entries were dropped. */
  ghost predicate ReadBy<V>(ops: seq<Op<V>>, now: real) {
    forall i :: 0 <= i < |ops| && (ops[i].Get? || ops[i].Cleanup?) ==> ops[i].now <= now
  }

  /** The cache holds every entry of the dictionary still alive at `now` or later. */
  ghost predicate Complete<V>(c: seq<Entry<V>>, d: Dictionary<V>, now: real) {
    forall key :: key in d && d[key].expiresAt >= now ==> Lookup(c, key) == Some(d[key])
  }

  lemma {:induction false} LookupWithout<V>(c: seq<Entry<V>>, key: string, k: string)
    ensures Lookup(Without(c, key), k) == if k == key then None else Lookup(c, k)
  {
    if c != [] {
      LookupWithout(c[1..], key, k);
    }
  }

  lemma {:induction false} LookupAppend<V>(c: seq<Entry<V>>, e: Entry<V>, k: string)
    ensures Lookup(c + [e], k)
         == if Lookup(c, k).Some? then Lookup(c, k) else if e.key == k then Some(e) else None
  {
    if c == [] {
      assert (c + [e])[1..] == [];
    } else {
      assert (c + [e])[1..] == c[1..] + [e];
      LookupAppend(c[1..], e, k);
    }
  }

  lemma {:induction false} LookupUnexpired<V>(c: seq<Entry<V>>, now: real, k: string)
    requires Unique(c)
    ensures Lookup(Unexpired(c, now), k)
         == if Lookup(c, k).Some? && Lookup(c, k).value.expiresAt >= now then Lookup(c, k) else None
  {
    if c != [] {
      LookupUnexpired(c[1..], now, k);
      LookupFacts(c[1..], k);
    }
  }

  lemma {:induction false} SizeIsKeyCount<V>(c: seq<Entry<V>>)
    requires Unique(c)
    ensures |c| == |Keys(c)|
  {
    if c != [] {
      SizeIsKeyCount(c[1..]);
    }
  }

  lemma {:induction false} SuffixKeys<V>(c: seq<Entry<V>>, i: nat)
    requires i <= |c|
    ensures Keys(c[i..]) <= Keys(c)
  {
    if i > 0 {
      SuffixKeys(c[1..], i - 1);
      assert c[1..][i - 1..] == c[i..];
    }
  }

  lemma MovedKeys<V>(c: seq<Entry<V>>, e: Entry<V>)
    ensures Keys(Without(c, e.key)) <= Keys(c) && Keys(Without(c, e.key) + [e]) <= Keys(c) + {e.key}
  {
    WithoutFacts(c, e.key);
    AppendUnique(Without(c, e.key), e);
  }

  lemma InsertedKeys<V>(c: seq<Entry<V>>, e: Entry<V>, n: int)
    ensures Keys(Inserted(c, e, n)) <= Keys(c) + {e.key}
  {
    var full := Without(c, e.key) + [e];
    MovedKeys(c, e);
    if |full| > n && n >= 0 {
      SuffixKeys(full, |full| - n);
    }
  }

  lemma ApplyKeys<V>(c: seq<Entry<V>>, op: Op<V>, n: int, ttlSeconds: int)
    ensures Keys(Apply(c, op, n, ttlSeconds)) <= Keys(c) + (if op.Set? then {op.key} else {})
  {
    match op
    case Get(key, now) =>
      LookupFacts(c, key);
      if Lookup(c, key).Some? {
        MovedKeys(c, Lookup(c, key).value);
      }
    case Set(_, _, _, _) => InsertedKeys(c, EntryFor(op, ttlSeconds), n);
    case Delete(key) => WithoutFacts(c, key);
    case Clear =>
    case Cleanup(now) => UnexpiredFacts(c, now);
  }

  lemma {:induction false} RunKeys<V>(ops: seq<Op<V>>, n: int, ttlSeconds: int)
    ensures Keys(Run(ops, n, ttlSeconds)) <= KeysSet(ops)
  {
    if ops != [] {
      var k := |ops| - 1;
      RunKeys(ops[..k], n, ttlSeconds);
      ApplyKeys(Run(ops[..k], n, ttlSeconds), ops[k], n, ttlSeconds);
    }
  }

  lemma NoEvictionNeeded<V>(c: seq<Entry<V>>, e: Entry<V>, keys: set<string>, n: int)
    requires Unique(c) && Keys(c) <= keys && e.key in keys && |keys| <= n
    ensures Inserted(c, e, n) == Without(c, e.key) + [e]
  {
    WithoutFacts(c, e.key);
    AppendUnique(Without(c, e.key), e);
    var full := Without(c, e.key) + [e];
    SizeIsKeyCount(full);
    SubsetSize(Keys(full), keys);
  }

  lemma {:induction false} CacheIsComplete<V>(ops: seq<Op<V>>, n: int, ttlSeconds: int, now: real)
    requires |KeysSet(ops)| <= n && ReadBy(ops, now)
    ensures Complete(Run(ops, n, ttlSeconds), DictionaryAfter(ops, ttlSeconds), now)
  {
    if ops != [] {
      var k := |ops| - 1;
      SubsetSize(KeysSet(ops[..k]), KeysSet(ops));
      CacheIsComplete(ops[..k], n, ttlSeconds, now);
      SizeNeverExceedsBound(ops[..k], n, ttlSeconds);
      RunKeys(ops[..k], n, ttlSeconds);
      var c, d := Run(ops[..k], n, ttlSeconds), DictionaryAfter(ops[..k], ttlSeconds);
      ApplyKeepsComplete(c, d, ops[k], KeysSet(ops), n, ttlSeconds, now);
    }
  }

  lemma ApplyKeepsComplete<V>(c: seq<Entry<V>>, d: Dictionary<V>, op: Op<V>, keys: set<string>, n: int,
                              ttlSeconds: int, now: real)
    requires Unique(c) && Complete(c, d, now)
    requires Keys(c) <= keys && |keys| <= n && (op.Set? ==> op.key in keys)
    requires (op.Get? || op.Cleanup?) ==> op.now <= now
    ensures op.Get? || op.Cleanup? ==> Complete(Apply(c, op, n, ttlSeconds), d, now)
    ensures op.Set? ==> Complete(Apply(c, op, n, ttlSeconds), d[op.key := EntryFor(op, ttlSeconds)], now)
    ensures op.Delete? ==> Complete(Apply(c, op, n, ttlSeconds), d - {op.key}, now)
  {
    var c' := Apply(c, op, n, ttlSeconds);
    if op.Set? {
      NoEvictionNeeded(c, EntryFor(op, ttlSeconds), keys, n);
    }
    if op.Get? {
      LookupFacts(c, op.key);
    }
    forall k: string
      ensures op.Get? && Lookup(c, k).Some? && Lookup(c, k).value.expiresAt >= now ==> Lookup(c', k) == Lookup(c, k)
      ensures op.Cleanup? && Lookup(c, k).Some? && Lookup(c, k).value.expiresAt >= now ==> Lookup(c', k) == Lookup(c, k)
      ensures op.Set? ==> Lookup(c', k) == if k == op.key then Some(EntryFor(op, ttlSeconds)) else Lookup(c, k)
      ensures op.Delete? ==> Lookup(c', k) == if k == op.key then None else Lookup(c, k)
    {
      match op
      case Get(key, t) =>
        LookupWithout(c, key, k);
        if Lookup(c, key).Some? {
          LookupAppend(Without(c, key), Lookup(c, key).value, k);
        }
      case Set(key, _, _, _) =>
        LookupWithout(c, key, k);
        LookupAppend(Without(c, key), EntryFor(op, ttlSeconds), k);
      case Delete(key) => LookupWithout(c, key, k);
      case Clear =>
      case Cleanup(t) => LookupUnexpired(c, t, k);
    }
  }

  /** With room for every key ever set and a forward clock, the cache answers every
      lookup, hit or miss, exactly as the unbounded dictionary does. */
  lemma RoomForAllMeansAgreement<V>(ops: seq<Op<V>>, n: int, ttlSeconds: int, key: string, now: real)
    requires |KeysSet(ops)| <= n && ReadBy(ops, now)
    ensures Answer(Run(ops, n, ttlSeconds), key, now)
         == DictionaryAnswer(DictionaryAfter(ops, ttlSeconds), key, now)
  {
    CacheIsComplete(ops, n, ttlSeconds, now);
    CacheIsBacked(ops, n, ttlSeconds);
    BackedLookup(Run(ops, n, ttlSeconds), DictionaryAfter(ops, ttlSeconds), key);
  }

  // ---- by least recent use ----

  /** The entries used more recently than `key`. */
  ghost function Behind<V>(c: seq<Entry<V>>, key: string): seq<Entry<V>> {
    if c == [] then []
    else if c[0].key == key then c[1..]
    else Behind(c[1..], key)
  }

  lemma {:induction false} BehindWithout<V>(c: seq<Entry<V>>, key: string, k: string)
    requires key != k
    ensures Behind(Without(c, key), k) == Without(Behind(c, k), key)
  {
    if c != [] {
      BehindWithout(c[1..], key, k);
      assert c[0].key != key ==> Without(c, key)[1..] == Without(c[1..], key);
    }
  }

  lemma {:induction false} BehindAppend<V>(c: seq<Entry<V>>, e: Entry<V>, k: string)
    ensures Behind(c + [e], k)
         == if Lookup(c, k).Some? then Behind(c, k) + [e] else []
  {
    if c == [] {
      assert (c + [e])[1..] == [];
    } else {
      assert (c + [e])[1..] == c[1..] + [e];
      BehindAppend(c[1..], e, k);
    }
  }

  lemma {:induction false} BehindUnexpired<V>(c: seq<Entry<V>>, now: real, k: string)
    requires Unique(c) && Lookup(c, k).Some? && Lookup(c, k).value.expiresAt >= now
    ensures Behind(Unexpired(c, now), k) == Unexpired(Behind(c, k), now)
  {
    if c[0].key == k {
      assert Unexpired(c, now)[1..] == Unexpired(c[1..], now);
    } else {
      BehindUnexpired(c[1..], now, k);
      assert c[0].expiresAt >= now ==> Unexpired(c, now)[1..] == Unexpired(c[1..], now);
    }
  }

  lemma {:induction false} BehindFacts<V>(c: seq<Entry<V>>, key: string)
    requires Unique(c) && Lookup(c, key).Some?
    ensures Unique(Behind(c, key)) && |Behind(c, key)| < |c|
    ensures |Behind(c, key)| == |c| - 1 <==> c[0].key == key
    ensures Keys(Behind(c, key)) <= Keys(c) - {key}
  {
    if c[0].key != key {
      BehindFacts(c[1..], key);
      LookupFacts(c[1..], key);
    }
  }

  lemma {:induction false} BehindBacked<V>(c: seq<Entry<V>>, d: Dictionary<V>, key: string)
    requires Backed(c, d)
    ensures Backed(Behind(c, key), d)
  {
    if c != [] && c[0].key != key {
      BehindBacked(c[1..], d, key);
    }
  }

  /** The operation neither sets the entry's key nor removes the entry. */
  ghost predicate Spares<V>(op: Op<V>, e: Entry<V>) {
    match op
    case Get(key, now) => key == e.key ==> now <= e.expiresAt
    case Set(key, _, _, _) => key != e.key
    case Delete(key) => key != e.key
    case Clear => false
    case Cleanup(now) => now <= e.expiresAt
  }

  ghost predicate Dead<V>(d: Dictionary<V>, key: string, now: real) {
    key in d && d[key].expiresAt < now
  }

  /** The other keys used since `key` was: a key joins when it is set or hit, and leaves
      when it is deleted or when a lookup or a cleanup finds that it has expired. */
  ghost function UsedNext<V>(hit: bool, d: Dictionary<V>, op: Op<V>, key: string, used: set<string>): set<string> {
    match op
    case Set(k, _, _, _) => used + {k}
    case Get(k, now) =>
      if hit then (if k == key then {} else used + {k})
      else if Dead(d, k, now) then used - {k}
      else used
    case Delete(k) => used - {k}
    case Clear => {}
    case Cleanup(now) => set k | k in used && !Dead(d, k, now)
  }

  ghost predicate Hits<V>(c: seq<Entry<V>>, op: Op<V>) {
    op.Get? && Answer(c, op.key, op.now).Some?
  }

  /** The keys used since `key` was, hits being the lookups the cache answered. */
  ghost function UsedSince<V>(before: seq<Op<V>>, after: seq<Op<V>>, key: string, n: int,
                              ttlSeconds: int): set<string> {
    if after == [] then {}
    else
      var k := |after| - 1;
      var ops := before + after[..k];
      UsedNext(Hits(Run(ops, n, ttlSeconds), after[k]), DictionaryAfter(ops, ttlSeconds), after[k], key,
               UsedSince(before, after[..k], key, n, ttlSeconds))
  }

  /** At no time were `n` other keys used since `key` was. */
  ghost predicate NeverCrowded<V>(before: seq<Op<V>>, after: seq<Op<V>>, key: string, n: int, ttlSeconds: int) {
    && |UsedSince(before, after, key, n, ttlSeconds)| < n
    && (after != [] ==> NeverCrowded(before, after[..|after| - 1], key, n, ttlSeconds))
  }

  /** The entry is there, and the keys behind it are the ones used since. */
  ghost predicate Placed<V>(c: seq<Entry<V>>, e: Entry<V>, used: set<string>) {
    Unique(c) && Lookup(c, e.key) == Some(e) && Keys(Behind(c, e.key)) == used
  }

  ghost predicate PlacedIf<V>(kept: bool, c: seq<Entry<V>>, e: Entry<V>, used: set<string>) {
    if kept then Placed(c, e, used) else Lookup(c, e.key).None?
  }

  lemma PlacedSize<V>(c: seq<Entry<V>>, e: Entry<V>, used: set<string>)
    requires Placed(c, e, used)
    ensures |used| < |c| && used <= Keys(c) - {e.key}
  {
    BehindFacts(c, e.key);
    SizeIsKeyCount(Behind(c, e.key));
  }

  /** A key other than the entry's goes. */
  lemma PlacedWithout<V>(c: seq<Entry<V>>, e: Entry<V>, used: set<string>, key: string)
    requires Placed(c, e, used) && key != e.key
    ensures Placed(Without(c, key), e, used - {key})
  {
    WithoutFacts(c, key);
    LookupWithout(c, key, e.key);
    BehindWithout(c, key, e.key);
    WithoutFacts(Behind(c, e.key), key);
  }

  /** A key other than the entry's moves to the end. */
  lemma MovedBehind<V>(c: seq<Entry<V>>, e: Entry<V>, used: set<string>, last: Entry<V>)
    requires Placed(c, e, used) && e.key != last.key
    ensures Placed(Without(c, last.key) + [last], e, used + {last.key})
  {
    var rest := Without(c, last.key);
    PlacedWithout(c, e, used, last.key);
    WithoutFacts(c, last.key);
    AppendUnique(rest, last);
    LookupAppend(rest, last, e.key);
    BehindAppend(rest, last, e.key);
    BehindFacts(rest, e.key);
    AppendUnique(Behind(rest, e.key), last);
    assert used - {last.key} + {last.key} == used + {last.key};
  }

  lemma PlacedAtEnd<V>(c: seq<Entry<V>>, e: Entry<V>)
    requires Unique(c) && e.key !in Keys(c)
    ensures Placed(c + [e], e, {})
  {
    AppendUnique(c, e);
    LookupFacts(c, e.key);
    LookupAppend(c, e, e.key);
    BehindAppend(c, e, e.key);
  }

  /** An overfull cache loses the entry exactly if `n` keys were used since. */
  lemma PlacedAfterEviction<V>(c: seq<Entry<V>>, e: Entry<V>, used: set<string>, n: int)
    requires Placed(c, e, used) && |c| <= n + 1
    ensures PlacedIf(|used| < n, Evicted(c, n), e, used)
  {
    BehindFacts(c, e.key);
    SizeIsKeyCount(Behind(c, e.key));
    if |c| == n + 1 {
      LookupFacts(c[1..], e.key);
    }
  }

  lemma SetKeepsPlaced<V>(c: seq<Entry<V>>, e: Entry<V>, used: set<string>, n: int, last: Entry<V>)
    requires Placed(c, e, used) && |c| <= n && last.key != e.key
    ensures PlacedIf(|used + {last.key}| < n, Inserted(c, last, n), e, used + {last.key})
  {
    WithoutFacts(c, last.key);
    MovedBehind(c, e, used, last);
    PlacedAfterEviction(Without(c, last.key) + [last], e, used + {last.key}, n);
  }

  lemma GetKeepsPlaced<V>(c: seq<Entry<V>>, d: Dictionary<V>, e: Entry<V>, used: set<string>, key: string, now: real)
    requires Placed(c, e, used) && Backed(c, d) && Spares(Op.Get(key, now), e)
    ensures Placed(Touched(c, key, now), e, UsedNext(Hits(c, Op.Get(key, now)), d, Op.Get(key, now), e.key, used))
    ensures |Touched(c, key, now)| <= |c|
  {
    WithoutFacts(c, key);
    LookupFacts(c, key);
    BackedLookup(c, d, key);
    BehindFacts(c, e.key);
    if Lookup(c, key).None? {
      assert used - {key} == used;
    } else if key == e.key {
      PlacedAtEnd(Without(c, key), e);
    } else if Lookup(c, key).value.expiresAt < now {
      PlacedWithout(c, e, used, key);
    } else {
      MovedBehind(c, e, used, Lookup(c, key).value);
    }
  }

  lemma {:induction false} UnexpiredKeys<V>(c: seq<Entry<V>>, d: Dictionary<V>, now: real)
    requires Unique(c) && Backed(c, d)
    ensures Keys(Unexpired(c, now)) == set k | k in Keys(c) && !Dead(d, k, now)
  {
    if c != [] {
      UnexpiredKeys(c[1..], d, now);
      assert c[0].expiresAt >= now ==> Unexpired(c, now)[1..] == Unexpired(c[1..], now);
    }
  }

  lemma CleanupKeepsPlaced<V>(c: seq<Entry<V>>, d: Dictionary<V>, e: Entry<V>, used: set<string>, now: real)
    requires Placed(c, e, used) && Backed(c, d) && now <= e.expiresAt
    ensures Placed(Unexpired(c, now), e, set k | k in used && !Dead(d, k, now))
    ensures |Unexpired(c, now)| <= |c|
  {
    UnexpiredFacts(c, now);
    LookupUnexpired(c, now, e.key);
    BehindUnexpired(c, now, e.key);
    BehindFacts(c, e.key);
    BehindBacked(c, d, e.key);
    UnexpiredKeys(Behind(c, e.key), d, now);
  }

  lemma ApplyKeepsPlaced<V>(c: seq<Entry<V>>, d: Dictionary<V>, op: Op<V>, e: Entry<V>, used: set<string>, n: int,
                            ttlSeconds: int)
    requires Placed(c, e, used) && Backed(c, d) && |c| <= n && Spares(op, e)
    ensures
      var used' := UsedNext(Hits(c, op), d, op, e.key, used);
      PlacedIf(|used'| < n, Apply(c, op, n, ttlSeconds), e, used')
  {
    var used' := UsedNext(Hits(c, op), d, op, e.key, used);
    match op
    case Get(key, now) =>
      GetKeepsPlaced(c, d, e, used, key, now);
      PlacedSize(Touched(c, key, now), e, used');
    case Set(_, _, _, _) => SetKeepsPlaced(c, e, used, n, EntryFor(op, ttlSeconds));
    case Delete(key) =>
      PlacedWithout(c, e, used, key);
      WithoutFacts(c, key);
      PlacedSize(Without(c, key), e, used');
    case Clear =>
    case Cleanup(now) =>
      CleanupKeepsPlaced(c, d, e, used, now);
      PlacedSize(Unexpired(c, now), e, used');
  }

  /** What does not spare an entry removes it. */
  lemma NotSparedIsGone<V>(c: seq<Entry<V>>, op: Op<V>, e: Entry<V>, n: int, ttlSeconds: int)
    requires Unique(c) && Lookup(c, e.key) == Some(e) && !Spares(op, e)
    requires !(op.Set? && op.key == e.key)
    ensures Lookup(Apply(c, op, n, ttlSeconds), e.key).None?
  {
    match op
    case Get(key, _) => LookupWithout(c, key, e.key);
    case Set(_, _, _, _) =>
    case Delete(key) => LookupWithout(c, key, e.key);
    case Clear =>
    case Cleanup(now) => LookupUnexpired(c, now, e.key);
  }

  lemma GoneStaysGone<V>(c: seq<Entry<V>>, op: Op<V>, key: string, n: int, ttlSeconds: int)
    requires Lookup(c, key).None? && !(op.Set? && op.key == key)
    ensures Lookup(Apply(c, op, n, ttlSeconds), key).None?
  {
    ApplyKeys(c, op, n, ttlSeconds);
    LookupFacts(c, key);
    LookupFacts(Apply(c, op, n, ttlSeconds), key);
  }

  lemma PlacedIfStep<V>(kept: bool, c: seq<Entry<V>>, d: Dictionary<V>, op: Op<V>, e: Entry<V>, used: set<string>,
                        n: int, ttlSeconds: int)
    requires PlacedIf(kept, c, e, used)
    requires Unique(c) && Backed(c, d) && (c == [] || |c| <= n) && !(op.Set? && op.key == e.key)
    ensures
      var used' := UsedNext(Hits(c, op), d, op, e.key, used);
      PlacedIf(kept && Spares(op, e) && |used'| < n, Apply(c, op, n, ttlSeconds), e, used')
  {
    if !kept {
      GoneStaysGone(c, op, e.key, n, ttlSeconds);
    } else if Spares(op, e) {
      ApplyKeepsPlaced(c, d, op, e, used, n, ttlSeconds);
    } else {
      NotSparedIsGone(c, op, e, n, ttlSeconds);
    }
  }

  lemma RunSnoc<V>(ops: seq<Op<V>>, op: Op<V>, n: int, ttlSeconds: int)
    ensures Run(ops + [op], n, ttlSeconds) == Apply(Run(ops, n, ttlSeconds), op, n, ttlSeconds)
  {
    assert (ops + [op])[..|ops|] == ops;
  }

  lemma OneMoreOp<V>(before: seq<Op<V>>, after: seq<Op<V>>, n: int, ttlSeconds: int)
    requires after != []
    ensures
      var k := |after| - 1;
      Run(before + after, n, ttlSeconds) == Apply(Run(before + after[..k], n, ttlSeconds), after[k], n, ttlSeconds)
  {
    var k := |after| - 1;
    assert before + after == before + after[..k] + [after[k]];
    RunSnoc(before + after[..k], after[k], n, ttlSeconds);
  }

  lemma PlacedWhenSet<V>(before: seq<Op<V>>, put: Op<V>, n: int, ttlSeconds: int)
    requires put.Set?
    ensures PlacedIf(0 < n, Run(before + [put], n, ttlSeconds), EntryFor(put, ttlSeconds), {})
  {
    var c, e := Run(before, n, ttlSeconds), EntryFor(put, ttlSeconds);
    RunSnoc(before, put, n, ttlSeconds);
    SizeNeverExceedsBound(before, n, ttlSeconds);
    WithoutFacts(c, e.key);
    PlacedAtEnd(Without(c, e.key), e);
    if n >= 0 {
      PlacedAfterEviction(Without(c, e.key) + [e], e, {}, n);
    }
  }

  ghost predicate AllSpare<V>(after: seq<Op<V>>, e: Entry<V>) {
    forall i :: 0 <= i < |after| ==> Spares(after[i], e)
  }

  ghost predicate NotSetIn<V>(after: seq<Op<V>>, key: string) {
    forall i :: 0 <= i < |after| && after[i].Set? ==> after[i].key != key
  }

  lemma {:induction false} PlacedThroughout<V>(before: seq<Op<V>>, put: Op<V>, after: seq<Op<V>>, n: int,
                                               ttlSeconds: int)
    requires put.Set? && NotSetIn(after, put.key)
    ensures
      var e, ops := EntryFor(put, ttlSeconds), before + [put];
      PlacedIf(AllSpare(after, e) && NeverCrowded(ops, after, e.key, n, ttlSeconds),
               Run(ops + after, n, ttlSeconds), e, UsedSince(ops, after, e.key, n, ttlSeconds))
  {
    var e, ops := EntryFor(put, ttlSeconds), before + [put];
    if after == [] {
      assert ops + after == ops;
      PlacedWhenSet(before, put, n, ttlSeconds);
    } else {
      var k := |after| - 1;
      PlacedThroughout(before, put, after[..k], n, ttlSeconds);
      OneMoreOp(ops, after, n, ttlSeconds);
      SizeNeverExceedsBound(ops + after[..k], n, ttlSeconds);
      CacheIsBacked(ops + after[..k], n, ttlSeconds);
      assert AllSpare(after, e) <==> AllSpare(after[..k], e) && Spares(after[k], e);
      PlacedIfStep(AllSpare(after[..k], e) && NeverCrowded(ops, after[..k], e.key, n, ttlSeconds),
                   Run(ops + after[..k], n, ttlSeconds), DictionaryAfter(ops + after[..k], ttlSeconds), after[k], e,
                   UsedSince(ops, after[..k], e.key, n, ttlSeconds), n, ttlSeconds);
    }
  }

  /** What the cache holds, exactly, after every run: the entry of a key's last setting is
      there if and only if nothing has removed it (no deletion, clearing, or lookup or
      cleanup after its expiry) and at no time `n` other keys, not removed in their turn,
      had been set or hit since it was last set or hit itself. */
  lemma LeastRecentlyUsedGoes<V>(before: seq<Op<V>>, put: Op<V>, after: seq<Op<V>>, n: int, ttlSeconds: int)
    requires put.Set? && NotSetIn(after, put.key)
    ensures
      var e := Entry(put.key, put.value, put.now + put.ttl.GetOr(ttlSeconds) as real);
      Lookup(Run(before + [put] + after, n, ttlSeconds), put.key)
      == if AllSpare(after, e) && NeverCrowded(before + [put], after, put.key, n, ttlSeconds) then Some(e) else None
  {
    PlacedThroughout(before, put, after, n, ttlSeconds);
  }

  lemma NeverSetIsAbsent<V>(ops: seq<Op<V>>, key: string, n: int, ttlSeconds: int)
    requires NotSetIn(ops, key)
    ensures Lookup(Run(ops, n, ttlSeconds), key).None?
  {
    RunKeys(ops, n, ttlSeconds);
    KeysSetAreSet(ops, key);
    LookupFacts(Run(ops, n, ttlSeconds), key);
  }

  lemma {:induction false} KeysSetAreSet<V>(ops: seq<Op<V>>, key: string)
    requires NotSetIn(ops, key)
    ensures key !in KeysSet(ops)
  {
    if ops != [] {
      KeysSetAreSet(ops[..|ops| - 1], key);
    }
  }

  // ---- what the dictionary alone can tell ----

  ghost predicate DictionaryHits<V>(d: Dictionary<V>, op: Op<V>) {
    op.Get? && DictionaryAnswer(d, op.key, op.now).Some?
  }

  /** The keys used since `key` was, as far as the unbounded dictionary can tell: every
      lookup it answers may be a hit. */
  ghost function UsedAtMost<V>(before: seq<Op<V>>, after: seq<Op<V>>, key: string, ttlSeconds: int): set<string> {
    if after == [] then {}
    else
      var k := |after| - 1;
      var d := DictionaryAfter(before + after[..k], ttlSeconds);
      UsedNext(DictionaryHits(d, after[k]), d, after[k], key, UsedAtMost(before, after[..k], key, ttlSeconds))
  }

  ghost predicate NeverCloseToCrowded<V>(before: seq<Op<V>>, after: seq<Op<V>>, key: string, n: int, ttlSeconds: int) {
    && |UsedAtMost(before, after, key, ttlSeconds)| < n
    && (after != [] ==> NeverCloseToCrowded(before, after[..|after| - 1], key, n, ttlSeconds))
  }

  lemma {:induction false} UsedIsAtMost<V>(before: seq<Op<V>>, put: Op<V>, after: seq<Op<V>>, n: int, ttlSeconds: int)
    requires put.Set? && AllSpare(after, EntryFor(put, ttlSeconds))
    requires NeverCloseToCrowded(before + [put], after, put.key, n, ttlSeconds)
    ensures NeverCrowded(before + [put], after, put.key, n, ttlSeconds)
    ensures UsedSince(before + [put], after, put.key, n, ttlSeconds)
         <= UsedAtMost(before + [put], after, put.key, ttlSeconds)
  {
    if after != [] {
      var k := |after| - 1;
      var ops := before + [put] + after[..k];
      UsedIsAtMost(before, put, after[..k], n, ttlSeconds);
      PlacedThroughout(before, put, after[..k], n, ttlSeconds);
      if after[k].Get? {
        HitsAreRight(ops, n, ttlSeconds, after[k].key, after[k].now);
      }
      assert UsedSince(before + [put], after, put.key, n, ttlSeconds)
          <= UsedAtMost(before + [put], after, put.key, ttlSeconds);
    }
    SubsetSize(UsedSince(before + [put], after, put.key, n, ttlSeconds),
               UsedAtMost(before + [put], after, put.key, ttlSeconds));
  }

  /** An entry that has not expired, with nothing to remove it, is still there as long as
      at no time `n` other keys, not removed in their turn, had been used since. */
  lemma RecentEntriesSurvive<V>(before: seq<Op<V>>, put: Op<V>, after: seq<Op<V>>, n: int, ttlSeconds: int, now: real)
    requires put.Set? && now <= put.now + put.ttl.GetOr(ttlSeconds) as real
    requires AllSpare(after, Entry(put.key, put.value, put.now + put.ttl.GetOr(ttlSeconds) as real))
    requires NeverCloseToCrowded(before + [put], after, put.key, n, ttlSeconds)
    ensures Answer(Run(before + [put] + after, n, ttlSeconds), put.key, now) == Some(put.value)
  {
    UsedIsAtMost(before, put, after, n, ttlSeconds);
    LeastRecentlyUsedGoes(before, put, after, n, ttlSeconds);
  }
}
