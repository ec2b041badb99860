/** Decrypted credentials cached for a minute in memory and longer in Redis. Each call is
    one step at one instant. Decrypting a configuration is a partial function, and what
    is read back from Redis is what was stored. */
module CredentialCache {
  import opened Wrappers

  type Account = string
  type Config = string
  type Credentials = string

  datatype Entry = Entry(credentials: Credentials, expires: real)

  /** How Redis behaves during one call. */
  datatype Weather = Weather(readable: bool, writable: bool)

  const MEMORY_TTL: real := 60.0

  datatype Settings = Settings(hasRedis: bool, ttl: real)

  datatype Levels = Levels(memory: map<Account, Entry>, redis: map<Account, Entry>)

  const EMPTY: Levels := Levels(map[], map[])

  function Unexpired(m: map<Account, Entry>, now: real): map<Account, Entry> {
    map a | a in m && !(m[a].expires <= now) :: m[a]
  }

  predicate Hit(m: map<Account, Entry>, a: Account, now: real) {
    a in m && m[a].expires > now
  }

  /** Redis drops an entry when its time is up, and refuses one without time to live. */
  function OnGet(p: Settings, s: Levels, a: Account, supplied: Option<Credentials>, now: real, w: Weather): Levels {
    var memory := Unexpired(s.memory, now);
    if Hit(memory, a, now) then s.(memory := memory)
    else if p.hasRedis && w.readable && Hit(s.redis, a, now)
    then s.(memory := memory[a := Entry(s.redis[a].credentials, now + MEMORY_TTL)])
    else if supplied.None? then s.(memory := memory)
    else
      Levels(memory[a := Entry(supplied.value, now + MEMORY_TTL)],
             if p.hasRedis && w.writable && p.ttl > 0.0
             then s.redis[a := Entry(supplied.value, now + p.ttl)] else s.redis)
  }

  function Got(p: Settings, s: Levels, a: Account, supplied: Option<Credentials>, now: real,
               w: Weather): Option<Credentials> {
    if Hit(s.memory, a, now) then Some(s.memory[a].credentials)
    else if p.hasRedis && w.readable && Hit(s.redis, a, now) then Some(s.redis[a].credentials)
    else supplied
  }

  function OnInvalidate(p: Settings, s: Levels, a: Account, writes: bool): Levels {
    Levels(s.memory - {a}, if p.hasRedis && writes then s.redis - {a} else s.redis)
  }

  /** Clearing scans Redis in batches; a failure leaves what was not yet `removed`. */
  function OnInvalidateAll(p: Settings, s: Levels, removed: set<Account>, complete: bool): Levels {
    Levels(map[], if !p.hasRedis then s.redis else if complete then map[] else s.redis - removed)
  }

  class SecureCredentialCache {
    const settings: Settings
    const decrypt: Config -> Option<Credentials>
    var memory: map<Account, Entry>
    var redis: map<Account, Entry>

    ghost function AsLevels(): Levels
      reads this
    {
      Levels(memory, redis)
    }

    constructor (settings: Settings, decrypt: Config -> Option<Credentials>)
      ensures this.settings == settings && this.decrypt == decrypt && AsLevels() == EMPTY
    {
      this.settings, this.decrypt := settings, decrypt;
      memory, redis := map[], map[];
    }

    method CleanupExpired(now: real) returns (removed: nat)
      modifies this`memory
      ensures memory == Unexpired(old(memory), now)
      ensures forall a :: a in memory <==> a in old(memory) && old(memory)[a].expires > now
      ensures removed == |old(memory)| - |memory|
    {
      ghost var before := memory;
      var expired := set a | a in memory && memory[a].expires <= now;
      removed := 0;
      while expired != {}
        invariant expired <= memory.Keys <= before.Keys
        invariant forall a :: a in memory ==> memory[a] == before[a]
        invariant forall a :: a in before ==> (a in memory <==> before[a].expires > now || a in expired)
        invariant removed == |before| - |memory|
        decreases expired
      {
        var a :| a in expired;
        expired := expired - {a};
        memory := memory - {a};
        removed := removed + 1;
      }
    }

    method GetCredentials(a: Account, config: Config, now: real, w: Weather) returns (credentials: Option<Credentials>)
      modifies this
      ensures AsLevels() == OnGet(settings, old(AsLevels()), a, decrypt(config), now, w)
      ensures credentials == Got(settings, old(AsLevels()), a, decrypt(config), now, w)
    {
      var removed := CleanupExpired(now);
      if a in memory && memory[a].expires > now {
        return Some(memory[a].credentials);
      }
      if settings.hasRedis && w.readable && Hit(redis, a, now) {
        memory := memory[a := Entry(redis[a].credentials, now + MEMORY_TTL)];
        return Some(redis[a].credentials);
      }
      credentials := decrypt(config);
      if credentials.Some? {
        CacheCredentials(a, credentials.value, now, w);
      }
    }

    method CacheCredentials(a: Account, credentials: Credentials, now: real, w: Weather)
      modifies this
      ensures memory == old(memory)[a := Entry(credentials, now + MEMORY_TTL)]
      ensures redis == if settings.hasRedis && w.writable && settings.ttl > 0.0
        then old(redis)[a := Entry(credentials, now + settings.ttl)] else old(redis)
    {
      memory := memory[a := Entry(credentials, now + MEMORY_TTL)];
      if settings.hasRedis && w.writable && settings.ttl > 0.0 {
        redis := redis[a := Entry(credentials, now + settings.ttl)];
      }
    }

    method Invalidate(a: Account, writes: bool) returns (invalidated: bool)
      modifies this
      ensures AsLevels() == OnInvalidate(settings, old(AsLevels()), a, writes)
      ensures invalidated <==> a in old(memory) || (settings.hasRedis && writes)
    {
      invalidated := false;
      if a in memory {
        memory := memory - {a};
        invalidated := true;
      }
      if settings.hasRedis && writes {
        redis := redis - {a};
        invalidated := true;
      }
    }

    /** The keys Redis deletes before a failure, if it fails, are `removed`. */
    method InvalidateAll(removed: set<Account>, complete: bool) returns (count: nat)
      modifies this
      ensures AsLevels() == OnInvalidateAll(settings, old(AsLevels()), removed, complete)
      ensures count == |old(memory)|
    {
      count := |memory|;
      memory := map[];
      if settings.hasRedis {
        redis := if complete then map[] else redis - removed;
      }
    }
  }

  // ---- runs ----

  datatype Event =
    | Get(account: Account, config: Config, now: real, weather: Weather)
    | Invalidate(account: Account, now: real, writes: bool)
    | InvalidateAll(now: real, removed: set<Account>, complete: bool)

  datatype World = World(settings: Settings, decrypt: Config -> Option<Credentials>)

  function Step(x: World, s: Levels, e: Event): Levels {
    match e
    case Get(a, config, now, w) => OnGet(x.settings, s, a, x.decrypt(config), now, w)
    case Invalidate(a, _, writes) => OnInvalidate(x.settings, s, a, writes)
    case InvalidateAll(_, removed, complete) => OnInvalidateAll(x.settings, s, removed, complete)
  }

  function After(x: World, events: seq<Event>): Levels
    decreases |events|
  {
    if events == [] then EMPTY else Step(x, After(x, events[..|events| - 1]), events[|events| - 1])
  }

  /** The clock does not run backwards. */
  predicate Timed(events: seq<Event>) {
    forall i, j :: 0 <= i < j < |events| ==> events[i].now <= events[j].now
  }

  /** The event removes whatever either level holds for the account. */
  predicate Clears(x: World, e: Event, a: Account) {
    match e
    case Get(_, _, _, _) => false
    case Invalidate(b, _, writes) => a == b && (!x.settings.hasRedis || writes)
    case InvalidateAll(_, removed, complete) => !x.settings.hasRedis || complete || a in removed
  }

  /** Event `i` supplied a configuration with these credentials, and nothing after it
      cleared the account. */
  ghost predicate Supplied(x: World, events: seq<Event>, i: nat, a: Account, c: Credentials) {
    && i < |events| && events[i].Get? && events[i].account == a && x.decrypt(events[i].config) == Some(c)
    && forall j :: i < j < |events| ==> !Clears(x, events[j], a)
  }

  /** How long after it was supplied a configuration may still be answered from. */
  function Bound(p: Settings): real {
    60.0 + if p.hasRedis && p.ttl > 0.0 then p.ttl else 0.0
  }

  /** A cached value goes back to an event no further than `age` before its expiry. */
  ghost predicate Backed(x: World, events: seq<Event>, a: Account, e: Entry, age: real) {
    exists i: nat :: Supplied(x, events, i, a, e.credentials) && e.expires <= events[i].now + age
  }

  ghost predicate LevelsBacked(x: World, events: seq<Event>, s: Levels) {
    && (forall a :: a in s.memory ==> Backed(x, events, a, s.memory[a], Bound(x.settings)))
    && (forall a :: a in s.redis
          ==> x.settings.hasRedis && x.settings.ttl > 0.0 && Backed(x, events, a, s.redis[a], x.settings.ttl))
  }

  lemma BackedLater(x: World, events: seq<Event>, e: Event, a: Account, entry: Entry, age: real)
    requires Backed(x, events, a, entry, age) && !Clears(x, e, a)
    ensures Backed(x, events + [e], a, entry, age)
  {
    var i: nat :| Supplied(x, events, i, a, entry.credentials) && entry.expires <= events[i].now + age;
    assert Supplied(x, events + [e], i, a, entry.credentials);
    assert (events + [e])[i] == events[i];
  }

  lemma JustSupplied(x: World, events: seq<Event>, e: Event, expires: real, age: real)
    requires e.Get? && x.decrypt(e.config).Some? && expires <= e.now + age
    ensures Backed(x, events + [e], e.account, Entry(x.decrypt(e.config).value, expires), age)
  {
    assert Supplied(x, events + [e], |events|, e.account, x.decrypt(e.config).value);
    assert (events + [e])[|events|] == e;
  }

  /** A refill from Redis adds a minute to an entry that had not expired. */
  lemma Refilled(x: World, events: seq<Event>, e: Event, a: Account, entry: Entry)
    requires x.settings.hasRedis && x.settings.ttl > 0.0
    requires Backed(x, events, a, entry, x.settings.ttl) && e.Get? && entry.expires > e.now
    ensures Backed(x, events + [e], a, Entry(entry.credentials, e.now + MEMORY_TTL), Bound(x.settings))
  {
    var i: nat :| Supplied(x, events, i, a, entry.credentials) && entry.expires <= events[i].now + x.settings.ttl;
    assert Supplied(x, events + [e], i, a, entry.credentials);
    assert (events + [e])[i] == events[i];
  }

  lemma StepKeepsBacked(x: World, events: seq<Event>, s: Levels, e: Event)
    requires LevelsBacked(x, events, s)
    ensures LevelsBacked(x, events + [e], Step(x, s, e))
  {
    var s' := Step(x, s, e);
    forall a | a in s'.memory
      ensures Backed(x, events + [e], a, s'.memory[a], Bound(x.settings))
    {
      if a in s.memory && s'.memory[a] == s.memory[a] {
        BackedLater(x, events, e, a, s.memory[a], Bound(x.settings));
      } else if x.settings.hasRedis && e.weather.readable && Hit(s.redis, a, e.now) {
        Refilled(x, events, e, a, s.redis[a]);
      } else {
        JustSupplied(x, events, e, e.now + MEMORY_TTL, Bound(x.settings));
      }
    }
    forall a | a in s'.redis
      ensures x.settings.hasRedis && x.settings.ttl > 0.0 && Backed(x, events + [e], a, s'.redis[a], x.settings.ttl)
    {
      if a in s.redis && s'.redis[a] == s.redis[a] {
        BackedLater(x, events, e, a, s.redis[a], x.settings.ttl);
      } else {
        JustSupplied(x, events, e, e.now + x.settings.ttl, x.settings.ttl);
      }
    }
  }

  lemma {:induction false} LevelsAreBacked(x: World, events: seq<Event>)
    ensures LevelsBacked(x, events, After(x, events))
    decreases |events|
  {
    if events != [] {
      var n := |events| - 1;
      LevelsAreBacked(x, events[..n]);
      StepKeepsBacked(x, events[..n], After(x, events[..n]), events[n]);
      assert events[..n] + [events[n]] == events;
    }
  }

  /** Over every run: what a call returns is the decryption of a configuration supplied
      for the account by this call, or by an earlier one less than the bound before and
      since which nothing cleared the account. */
  lemma CredentialsAreRecent(x: World, events: seq<Event>, a: Account, config: Config, now: real, w: Weather)
    returns (i: nat)
    requires Timed(events + [Get(a, config, now, w)])
    requires Got(x.settings, After(x, events), a, x.decrypt(config), now, w).Some?
    ensures
      var run := events + [Get(a, config, now, w)];
      && Supplied(x, run, i, a, Got(x.settings, After(x, events), a, x.decrypt(config), now, w).value)
      && 0.0 <= now - run[i].now < Bound(x.settings)
  {
    var s := After(x, events);
    var e := Get(a, config, now, w);
    var run := events + [e];
    LevelsAreBacked(x, events);
    if Hit(s.memory, a, now) {
      i :| Supplied(x, events, i, a, s.memory[a].credentials)
          && s.memory[a].expires <= events[i].now + Bound(x.settings);
      assert run[i] == events[i] && run[|events|] == e;
      assert Supplied(x, run, i, a, s.memory[a].credentials);
    } else if x.settings.hasRedis && w.readable && Hit(s.redis, a, now) {
      i :| Supplied(x, events, i, a, s.redis[a].credentials) && s.redis[a].expires <= events[i].now + x.settings.ttl;
      assert run[i] == events[i] && run[|events|] == e;
      assert Supplied(x, run, i, a, s.redis[a].credentials);
    } else {
      i := |events|;
      assert run[i] == e;
    }
  }

  /** After an invalidation that succeeded on both levels, the next answer comes from a
      configuration supplied later. */
  lemma InvalidationIsRespected(x: World, events: seq<Event>, k: nat, a: Account, config: Config, now: real, w: Weather)
    returns (i: nat)
    requires Timed(events + [Get(a, config, now, w)])
    requires k < |events| && Clears(x, events[k], a)
    requires Got(x.settings, After(x, events), a, x.decrypt(config), now, w).Some?
    ensures i > k && Supplied(x, events + [Get(a, config, now, w)], i, a,
      Got(x.settings, After(x, events), a, x.decrypt(config), now, w).value)
  {
    i := CredentialsAreRecent(x, events, a, config, now, w);
    assert (events + [Get(a, config, now, w)])[k] == events[k];
  }

  // ---- what is kept ----

  /** No event after `i` invalidates the account. */
  ghost predicate LeftAlone(events: seq<Event>, i: nat, a: Account) {
    forall j :: i < j < |events| ==> !events[j].InvalidateAll? && (events[j].Invalidate? ==> events[j].account != a)
  }

  /** Memory holds the credentials until a minute after event `i`, which decrypted them. */
  ghost predicate Remembers(s: Levels, a: Account, c: Credentials, expires: real) {
    a in s.memory && s.memory[a] == Entry(c, expires)
  }

  lemma RememberingStep(x: World, s: Levels, e: Event, a: Account, c: Credentials, expires: real)
    requires Remembers(s, a, c, expires) && e.now < expires
    requires !e.InvalidateAll? && (e.Invalidate? ==> e.account != a)
    ensures Remembers(Step(x, s, e), a, c, expires)
  {
  }

  lemma {:induction false} StillRemembered(x: World, events: seq<Event>, i: nat, c: Credentials)
    requires Timed(events) && i < |events| && events[i].Get? && LeftAlone(events, i, events[i].account)
    requires events[|events| - 1].now < events[i].now + 60.0
    requires Decrypts(x, events, i) && x.decrypt(events[i].config) == Some(c)
    ensures Remembers(After(x, events), events[i].account, c, events[i].now + 60.0)
    decreases |events|
  {
    var n := |events| - 1;
    if i < n {
      assert events[..n][..i] == events[..i] && events[..n][i] == events[i] && events[..n][n - 1] == events[n - 1];
      StillRemembered(x, events[..n], i, c);
      RememberingStep(x, After(x, events[..n]), events[n], events[i].account, c, events[i].now + 60.0);
    }
  }

  /** Event `i` is a call that neither level answers. */
  ghost predicate Decrypts(x: World, events: seq<Event>, i: nat)
    requires i < |events| && events[i].Get?
  {
    var s, e := After(x, events[..i]), events[i];
    !(e.account in s.memory && s.memory[e.account].expires > e.now)
    && !(x.settings.hasRedis && e.weather.readable && e.account in s.redis && s.redis[e.account].expires > e.now)
  }

  /** What a call had to decrypt is answered from memory for a minute, whatever
      configuration is handed in, unless the account is invalidated; invalidating others
      does not matter. */
  lemma CachedForAMinute(x: World, events: seq<Event>, i: nat, config: Config, now: real, w: Weather)
    requires i < |events| && events[i].Get? && LeftAlone(events, i, events[i].account)
    requires Timed(events + [Get(events[i].account, config, now, w)]) && now < events[i].now + 60.0
    requires Decrypts(x, events, i) && x.decrypt(events[i].config).Some?
    ensures Got(x.settings, After(x, events), events[i].account, x.decrypt(config), now, w)
         == x.decrypt(events[i].config)
  {
    var longer := events + [Get(events[i].account, config, now, w)];
    assert longer[|events|].now == now && longer[|events| - 1] == events[|events| - 1];
    assert forall j :: 0 <= j < |events| ==> longer[j] == events[j];
    StillRemembered(x, events, i, x.decrypt(events[i].config).value);
  }

  /** The bound cannot be lowered: where Redis keeps entries, an answer of any smaller
      age occurs, after an invalidation that failed to reach Redis. */
  lemma BoundIsReached(x: World, a: Account, previous: Config, current: Config, age: real) returns (events: seq<Event>)
    requires x.settings.hasRedis && x.settings.ttl > 0.0
    requires 0.0 <= age < Bound(x.settings) && x.decrypt(previous).Some?
    ensures Timed(events + [Get(a, current, age, Weather(true, true))])
    ensures events != [] && events[0] == Get(a, previous, 0.0, Weather(true, true))
    ensures forall i :: 0 < i < |events| && events[i].Get? ==> events[i].config == current
    ensures Got(x.settings, After(x, events), a, x.decrypt(current), age, Weather(true, true)) == x.decrypt(previous)
  {
    var fine, ttl := Weather(true, true), x.settings.ttl;
    var earliest := if age < MEMORY_TTL then 0.0 else age - MEMORY_TTL;
    var refill := (earliest + if ttl < age then ttl else age) / 2.0;
    assert refill <= age < refill + MEMORY_TTL && 0.0 <= refill < ttl;
    var e0, e1, e2 := Get(a, previous, 0.0, fine), Invalidate(a, refill, false), Get(a, current, refill, fine);
    events := [e0, e1, e2];
    var s1 := OnGet(x.settings, EMPTY, a, x.decrypt(previous), 0.0, fine);
    assert [e0][..0] == [] && [e0, e1][..1] == [e0] && events[..2] == [e0, e1];
    assert After(x, [e0]) == s1;
    assert After(x, [e0, e1]) == Levels(s1.memory - {a}, s1.redis);
  }
}
