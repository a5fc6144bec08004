// The two-level cache of formula results: an in-memory LRU in front of Redis.
//
// Entries may expire or be evicted, and Redis may be away, at any moment; a World says what of that
// happens during a request.  What the formula engine computes is a parameter.
module FormulaCache {
  import opened Wrappers

  datatype Value = Plain(content: string) | Error(kind: string)

  /** The engine: its value for a formula and a locale at a time, also over given cell data, and
      which formulas are blocked or depend on the time. */
  datatype Engine = Engine(
    eval: (string, string, nat) -> Value,
    evalWithData: (string, string, string, nat) -> Value,
    blocked: string -> bool,
    volatile: string -> bool)

  /** Formulas not marked volatile mean the same at all times. */
  ghost predicate TimelessUnlessVolatile(e: Engine) {
    forall f, loc, t, t' :: !e.volatile(f) ==> e.eval(f, loc, t) == e.eval(f, loc, t')
  }

  // ---------------------------------------------------------------- keys

  function Key(formula: string, locale: string): string {
    "f:" + locale + ":" + formula
  }

  /** Keys tell formulas and locales apart as long as locales have no colon. */
  lemma KeyInjective(f: string, loc: string, f': string, loc': string)
    requires ':' !in loc && ':' !in loc'
    ensures Key(f, loc) == Key(f', loc') <==> f == f' && loc == loc'
  {
    if Key(f, loc) == Key(f', loc') {
      var k, k' := Key(f, loc), Key(f', loc');
      assert k[2..] == loc + ":" + f && k'[2..] == loc' + ":" + f';
      SplitAtColon(loc, f, loc', f');
    }
  }

  lemma SplitAtColon(a: string, b: string, a': string, b': string)
    requires ':' !in a && ':' !in a' && a + ":" + b == a' + ":" + b'
    ensures a == a' && b == b'
  {
    var s, s' := a + ":" + b, a' + ":" + b';
    assert s[|a|] == ':' && s'[|a'|] == ':';
    assert forall k :: 0 <= k < |a| ==> s[k] == a[k];
    assert forall k :: 0 <= k < |a'| ==> s'[k] == a'[k];
    assert |a| == |a'|;
    assert s[..|a|] == a && s'[..|a'|] == a';
    assert s[|a| + 1..] == b && s'[|a'| + 1..] == b';
  }

  /** One request's locale goes on, after a colon, with `x`; the other's formula starts with it. */
  predicate MeetAt(f: string, loc: string, f': string, loc': string, x: string) {
    loc' == loc + ":" + x && f == x + ":" + f'
  }

  ghost predicate Meet(f: string, loc: string, f': string, loc': string) {
    exists x :: MeetAt(f, loc, f', loc', x)
  }

  lemma KeysOfMeeting(f: string, loc: string, f': string, loc': string)
    requires Meet(f, loc, f', loc')
    ensures Key(f, loc) == Key(f', loc')
  {
    var x :| MeetAt(f, loc, f', loc', x);
    assert loc + ":" + (x + ":" + f') == (loc + ":" + x) + ":" + f';
  }

  lemma MeetingOfKeys(f: string, loc: string, f': string, loc': string)
    requires Key(f, loc) == Key(f', loc') && |loc| < |loc'|
    ensures Meet(f, loc, f', loc')
  {
    var s, s' := loc + ":" + f, loc' + ":" + f';
    assert Key(f, loc)[2..] == s && Key(f', loc')[2..] == s';
    var x := loc'[|loc| + 1..];
    assert s[|loc|] == ':' && s'[..|loc'|] == loc' && loc'[|loc|] == ':';
    assert loc'[..|loc|] == s'[..|loc|] == s[..|loc|] == loc;
    assert s[|loc| + 1..] == f && s'[|loc| + 1..] == x + ":" + f';
    assert MeetAt(f, loc, f', loc', x);
  }

  lemma SameLength(f: string, loc: string, f': string, loc': string)
    requires Key(f, loc) == Key(f', loc') && |loc| == |loc'|
    ensures f == f' && loc == loc'
  {
    var s, s' := loc + ":" + f, loc' + ":" + f';
    assert Key(f, loc)[2..] == s && Key(f', loc')[2..] == s';
    assert s[..|loc|] == loc && s'[..|loc|] == loc' && s[|loc| + 1..] == f && s'[|loc| + 1..] == f';
  }

  /** Two different requests share a key exactly if one locale is the other, a colon and some `x`,
      and the formula with the shorter locale is `x`, a colon and the other formula. */
  lemma SameKeyIff(f: string, loc: string, f': string, loc': string)
    requires f != f' || loc != loc'
    ensures Key(f, loc) == Key(f', loc') <==> Meet(f, loc, f', loc') || Meet(f', loc', f, loc)
  {
    if Key(f, loc) == Key(f', loc') {
      if |loc| == |loc'| {
        SameLength(f, loc, f', loc');
      } else if |loc| < |loc'| {
        MeetingOfKeys(f, loc, f', loc');
      } else {
        MeetingOfKeys(f', loc', f, loc);
      }
    }
    if Meet(f, loc, f', loc') {
      KeysOfMeeting(f, loc, f', loc');
    }
    if Meet(f', loc', f, loc) {
      KeysOfMeeting(f', loc', f, loc);
    }
  }

  ghost predicate SharesKey(f: string, loc: string, f': string, loc': string) {
    (f != f' || loc != loc') && Key(f, loc) == Key(f', loc')
  }

  /** So a request shares its key with some other one exactly if its locale or its formula has a
      colon. */
  lemma SharedIff(f: string, loc: string)
    ensures (exists f', loc' :: SharesKey(f, loc, f', loc')) <==> ':' in loc || ':' in f
  {
    if ':' in loc {
      var i :| 0 <= i < |loc| && loc[i] == ':';
      var a, x := loc[..i], loc[i + 1..];
      assert loc == a + ":" + x;
      assert MeetAt(x + ":" + f, a, f, loc, x);
      KeysOfMeeting(x + ":" + f, a, f, loc);
      assert SharesKey(f, loc, x + ":" + f, a);
    } else if ':' in f {
      var i :| 0 <= i < |f| && f[i] == ':';
      var x, b := f[..i], f[i + 1..];
      assert f == x + ":" + b;
      assert MeetAt(f, loc, b, loc + ":" + x, x);
      KeysOfMeeting(f, loc, b, loc + ":" + x);
      assert SharesKey(f, loc, b, loc + ":" + x);
    }
    forall f', loc' | SharesKey(f, loc, f', loc') ensures ':' in loc || ':' in f {
      SameKeyIff(f, loc, f', loc');
      if Meet(f, loc, f', loc') {
        var x :| MeetAt(f, loc, f', loc', x);
        assert f[|x|] == ':';
      } else {
        var x :| MeetAt(f', loc', f, loc, x);
        assert loc[|loc'|] == ':';
      }
    }
  }

  // ---------------------------------------------------------------- what may be cached

  /** `v` is the answer for the formula, not an error, and stays the answer. */
  ghost predicate Cacheable(e: Engine, f: string, loc: string, v: Value) {
    !e.volatile(f) && v.Plain? && v == e.eval(f, loc, 0)
  }

  /** The entry is the value of a request under one of these locales. */
  ghost predicate EntrySound(e: Engine, locales: set<string>, k: string, v: Value) {
    exists f, loc :: loc in locales && k == Key(f, loc) && Cacheable(e, f, loc, v)
  }

  ghost predicate Sound(e: Engine, locales: set<string>, entries: map<string, Value>) {
    forall k :: k in entries ==> EntrySound(e, locales, k, entries[k])
  }

  lemma SoundMore(e: Engine, locales: set<string>, more: set<string>, entries: map<string, Value>)
    requires Sound(e, locales, entries) && locales <= more
    ensures Sound(e, more, entries)
  {
    forall k | k in entries ensures EntrySound(e, more, k, entries[k]) {
      assert EntrySound(e, locales, k, entries[k]);
    }
  }

  predicate NoColons(locales: set<string>) {
    forall loc :: loc in locales ==> ':' !in loc
  }

  /** A hit for a request is the value of a request with the same key: of its own if no locale in
      use has a colon, or if neither its own locale nor its formula has one. */
  lemma OwnHit(e: Engine, locales: set<string>, f: string, loc: string, v: Value)
    requires EntrySound(e, locales, Key(f, loc), v)
    requires NoColons(locales + {loc}) || (':' !in loc && ':' !in f)
    ensures Cacheable(e, f, loc, v)
  {
    var f', loc' :| loc' in locales && Key(f, loc) == Key(f', loc') && Cacheable(e, f', loc', v);
    if ':' !in loc && ':' !in f {
      SharedIff(f, loc);
      assert !SharesKey(f, loc, f', loc');
    } else {
      KeyInjective(f, loc, f', loc');
    }
  }

  /** What one request stores, another one finds exactly if their keys meet; if the values differ,
      the hit is wrong. */
  lemma FoundByOther(e: Engine, f: string, loc: string, f': string, loc': string, v: Value)
    requires (f != f' || loc != loc') && Cacheable(e, f', loc', v)
    ensures Key(f, loc) in map[Key(f', loc') := v] <==> Meet(f, loc, f', loc') || Meet(f', loc', f, loc)
    ensures Key(f, loc) == Key(f', loc') ==> EntrySound(e, {loc'}, Key(f, loc), v)
    ensures v != e.eval(f, loc, 0) ==> !Cacheable(e, f, loc, v)
  {
    SameKeyIff(f, loc, f', loc');
  }

  datatype Entry = Entry(formula: string, value: Value)

  // ---------------------------------------------------------------- what happens around a request

  /** Entries of the in-memory level that have expired when they are looked up; whether Redis answers
      the lookup of the others, what it has lost by then, and how many of its replies can be read;
      whether the pool takes the request; and what Redis loses while the worker evaluates, whether it
      is ready then, and takes what is written. */
  datatype World = World(expired: set<string>, reachable: bool, lost: set<string>, readable: nat, accepted: bool,
                         gone: set<string>, ready: bool, written: bool)

  predicate InMemory(lru: map<string, Value>, w: World, k: string) {
    k in lru && k !in w.expired
  }

  /** Where the two levels have `k`, if Redis is asked. */
  function Found(lru: map<string, Value>, redis: map<string, Value>, asked: bool, w: World, k: string): Option<Value> {
    if InMemory(lru, w, k) then Some(lru[k])
    else if asked && k in redis && k !in w.lost then Some(redis[k])
    else None
  }

  /** A hit is what one of the levels has; what is in memory is a hit, and also what Redis has, if it
      is asked and all its replies can be read. */
  ghost predicate HitsFound(lru: map<string, Value>, redis: map<string, Value>, asked: bool, w: World,
                            formulas: seq<string>, locale: string, hits: map<nat, Value>) {
    && (forall i :: i in hits ==>
          i < |formulas| && Found(lru, redis, asked, w, Key(formulas[i], locale)) == Some(hits[i]))
    && (forall i: nat :: i < |formulas| && InMemory(lru, w, Key(formulas[i], locale)) ==> i in hits)
    && (w.readable >= |formulas| ==>
          forall i: nat :: i < |formulas| && Found(lru, redis, asked, w, Key(formulas[i], locale)).Some? ==> i in hits)
  }

  /** The first `n` formulas that are in memory, with their values. */
  ghost predicate MemoryHits(lru: map<string, Value>, w: World, formulas: seq<string>, locale: string, n: nat,
                             hits: map<nat, Value>) {
    && n <= |formulas|
    && (forall m: nat :: m in hits <==> m < n && InMemory(lru, w, Key(formulas[m], locale)))
    && (forall m :: m in hits ==> hits[m] == lru[Key(formulas[m], locale)])
  }

  ghost predicate AllMissing(missing: seq<nat>, n: nat, hits: map<nat, Value>) {
    && |missing| <= n
    && (forall m :: 0 <= m < |missing| ==> missing[m] < n && missing[m] !in hits)
    && (forall m: nat :: m < n && m !in hits ==> m in missing)
  }

  lemma NoneYet(lru: map<string, Value>, w: World, formulas: seq<string>, locale: string)
    ensures MemoryHits(lru, w, formulas, locale, 0, map[]) && AllMissing([], 0, map[])
  {
  }

  lemma NextLookup(lru: map<string, Value>, w: World, formulas: seq<string>, locale: string, n: nat,
                   hits: map<nat, Value>, missing: seq<nat>)
    requires n < |formulas| && MemoryHits(lru, w, formulas, locale, n, hits) && AllMissing(missing, n, hits)
    ensures
      var k := Key(formulas[n], locale);
      if InMemory(lru, w, k) then
        MemoryHits(lru, w, formulas, locale, n + 1, hits[n := lru[k]]) && AllMissing(missing, n + 1, hits[n := lru[k]])
      else
        MemoryHits(lru, w, formulas, locale, n + 1, hits) && AllMissing(missing + [n], n + 1, hits)
  {
    hide Key;
  }

  /** Nothing is in a level that was not there. */
  predicate Within(before: map<string, Value>, now: map<string, Value>) {
    forall k :: k in now ==> k in before && before[k] == now[k]
  }

  predicate FromEither(lru: map<string, Value>, redis: map<string, Value>, now: map<string, Value>) {
    forall k :: k in now ==> (k in lru && lru[k] == now[k]) || (k in redis && redis[k] == now[k])
  }

  ghost predicate FromEntry(entries: seq<Entry>, locale: string, k: string, v: Value) {
    exists i :: 0 <= i < |entries| && k == Key(entries[i].formula, locale) && v == entries[i].value
  }

  /** Nothing is in a level but what was there and these entries. */
  ghost predicate GrownBy(before: map<string, Value>, now: map<string, Value>, entries: seq<Entry>, locale: string) {
    forall k :: k in now ==> (k in before && before[k] == now[k]) || FromEntry(entries, locale, k, now[k])
  }

  ghost predicate AllIn(level: map<string, Value>, entries: seq<Entry>, locale: string) {
    forall i :: 0 <= i < |entries| ==> (Key(entries[i].formula, locale), entries[i].value) in level.Items
  }

  ghost predicate AllCacheable(e: Engine, entries: seq<Entry>, locale: string) {
    forall i :: 0 <= i < |entries| ==> Cacheable(e, entries[i].formula, locale, entries[i].value)
  }

  lemma FoundIsSound(e: Engine, locales: set<string>, lru: map<string, Value>, redis: map<string, Value>, asked: bool,
                   w: World, k: string)
    requires Sound(e, locales, lru) && Sound(e, locales, redis) && Found(lru, redis, asked, w, k).Some?
    ensures EntrySound(e, locales, k, Found(lru, redis, asked, w, k).value)
  {
  }

  /** The next entry takes its place without changing one before it. */
  lemma EntryAdded(e: Engine, before: map<string, Value>, now: map<string, Value>, entries: seq<Entry>, locale: string,
                   i: nat, now': map<string, Value>)
    requires i < |entries| && AllCacheable(e, entries, locale) && GrownBy(before, now, entries[..i], locale)
    requires forall k :: k in now' && k != Key(entries[i].formula, locale) ==> k in now && now'[k] == now[k]
    requires Key(entries[i].formula, locale) in now' && now'[Key(entries[i].formula, locale)] == entries[i].value
    ensures GrownBy(before, now', entries[..i + 1], locale)
    ensures AllIn(now, entries[..i], locale) && now' == now[Key(entries[i].formula, locale) := entries[i].value] ==>
      AllIn(now', entries[..i + 1], locale)
  {
    var front, more := entries[..i], entries[..i + 1];
    forall k | k in now' ensures (k in before && before[k] == now'[k]) || FromEntry(more, locale, k, now'[k]) {
      if k == Key(entries[i].formula, locale) {
        assert more[i] == entries[i];
      } else if FromEntry(front, locale, k, now[k]) {
        var j :| 0 <= j < |front| && k == Key(front[j].formula, locale) && now[k] == front[j].value;
        assert more[j] == front[j];
      }
    }
    if AllIn(now, front, locale) && now' == now[Key(entries[i].formula, locale) := entries[i].value] {
      forall j | 0 <= j < |more| ensures (Key(more[j].formula, locale), more[j].value) in now'.Items {
        if j < i {
          assert more[j] == front[j] && (Key(front[j].formula, locale), front[j].value) in now.Items;
          if Key(more[j].formula, locale) == Key(entries[i].formula, locale) {
            SameLength(more[j].formula, locale, entries[i].formula, locale);
          }
        }
      }
    }
  }

  // ---------------------------------------------------------------- the cache

  class Cache {
    const engine: Engine
    var lru: map<string, Value>
    var redis: map<string, Value>
    var redisReady: bool
    /** The locales under which something has been stored. */
    ghost var locales: set<string>

    ghost predicate Valid()
      reads this
    {
      Sound(engine, locales, lru) && Sound(engine, locales, redis)
    }

    constructor (engine: Engine)
      ensures Valid() && this.engine == engine && lru == map[] && redis == map[] && locales == {}
    {
      this.engine, lru, redis, redisReady, locales := engine, map[], map[], false, {};
    }

    /** What other requests, expiry and the connection do while this one waits. */
    method Interference(gone: set<string>, ready: bool)
      requires Valid()
      modifies this`lru, this`redis, this`redisReady
      ensures Valid() && redis == old(redis) - gone && redisReady == ready
      ensures Within(old(lru), lru)
    {
      var evicted: set<string> := *;
      lru := lru - evicted;
      redis, redisReady := redis - gone, ready;
    }

    method LruGet(k: string, expired: bool) returns (v: Option<Value>)
      requires Valid()
      modifies this`lru
      ensures Valid()
      ensures v == if k in old(lru) && !expired then Some(old(lru)[k]) else None
      ensures lru == if expired then old(lru) - {k} else old(lru)
    {
      if expired {
        lru := lru - {k};
      }
      v := if k in lru then Some(lru[k]) else None;
    }

    /** Others may have to make room for the entry. */
    method LruSet(k: string, v: Value)
      requires Valid() && EntrySound(engine, locales, k, v)
      modifies this`lru
      ensures Valid() && k in lru && lru[k] == v
      ensures forall q :: q in lru && q != k ==> q in old(lru) && lru[q] == old(lru)[q]
    {
      var evicted: set<string> := *;
      lru := lru[k := v] - (evicted - {k});
    }

    /** The value in memory, or else in Redis, from where it is put back into memory; it is that of a
        request with the same key. */
    method Get(formula: string, locale: string, w: World) returns (v: Option<Value>)
      requires Valid()
      modifies this`lru
      ensures Valid()
      ensures v == if InMemory(old(lru), w, Key(formula, locale)) then Some(old(lru)[Key(formula, locale)])
                   else if redisReady && w.reachable && Key(formula, locale) in redis then Some(redis[Key(formula, locale)])
                   else None
      ensures v.Some? ==> (Key(formula, locale), v.value) in lru.Items
      ensures v.Some? ==> EntrySound(engine, locales, Key(formula, locale), v.value)
      ensures v.Some? && NoColons(locales + {locale}) ==> Cacheable(engine, formula, locale, v.value)
    {
      var k := Key(formula, locale);
      v := LruGet(k, k in w.expired);
      if v.None? && redisReady && w.reachable && k in redis {
        v := Some(redis[k]);
        LruSet(k, redis[k]);
      }
      if v.Some? && NoColons(locales + {locale}) {
        OwnHit(engine, locales, formula, locale, v.value);
      }
    }

    ghost method UseLocale(locale: string)
      requires Valid()
      modifies this`locales
      ensures Valid() && locales == old(locales) + {locale}
    {
      SoundMore(engine, locales, locales + {locale}, lru);
      SoundMore(engine, locales, locales + {locale}, redis);
      locales := locales + {locale};
    }

    /** Both levels have the value afterwards, Redis if it is ready and takes it. */
    method Set(formula: string, locale: string, value: Value, written: bool)
      requires Valid() && Cacheable(engine, formula, locale, value)
      modifies this
      ensures Valid() && locales == old(locales) + {locale} && redisReady == old(redisReady)
      ensures (Key(formula, locale), value) in lru.Items
      ensures forall q :: q in lru && q != Key(formula, locale) ==> q in old(lru) && lru[q] == old(lru)[q]
      ensures redis == if redisReady && written then old(redis)[Key(formula, locale) := value] else old(redis)
    {
      UseLocale(locale);
      var k := Key(formula, locale);
      assert EntrySound(engine, locales, k, value);
      LruSet(k, value);
      if redisReady && written {
        redis := redis[k := value];
      }
    }

    /** The hits by position.  Redis is asked for all the misses at once; it may be away, or
        the reply may turn out unreadable part way. */
    method Mget(formulas: seq<string>, locale: string, w: World) returns (results: map<nat, Value>)
      requires Valid()
      modifies this`lru, this`redis, this`redisReady
      ensures Valid()
      ensures HitsFound(old(lru), old(redis), old(redisReady) && w.reachable, w, formulas, locale, results)
      ensures HitsFor(formulas, locale, results)
      ensures FromEither(old(lru), old(redis), lru) && Within(old(redis), redis)
    {
      var missing: seq<nat>;
      results, missing := FromMemory(formulas, locale, w);
      if |missing| > 0 && redisReady && w.reachable {
        var ready: bool := *;
        Interference(w.lost, ready);
        results := FromRedis(formulas, locale, w, results, missing, old(lru), old(redis));
      }
      forall i | i in results ensures EntrySound(engine, locales, Key(formulas[i], locale), results[i]) {
        FoundIsSound(engine, locales, old(lru), old(redis), old(redisReady) && w.reachable, w, Key(formulas[i], locale));
      }
    }

    method FromMemory(formulas: seq<string>, locale: string, w: World) returns (results: map<nat, Value>, missing: seq<nat>)
      requires Valid()
      modifies this`lru
      ensures Valid() && Within(old(lru), lru)
      ensures MemoryHits(old(lru), w, formulas, locale, |formulas|, results)
      ensures AllMissing(missing, |formulas|, results)
    {
      hide MemoryHits, AllMissing, Key, Sound;
      results, missing := map[], [];
      NoneYet(lru, w, formulas, locale);
      for i := 0 to |formulas|
        invariant Valid() && Within(old(lru), lru) && (forall k :: InMemory(old(lru), w, k) ==> k in lru)
        invariant MemoryHits(old(lru), w, formulas, locale, i, results) && AllMissing(missing, i, results)
      {
        var k := Key(formulas[i], locale);
        NextLookup(old(lru), w, formulas, locale, i, results, missing);
        var v := LruGet(k, k in w.expired);
        if v.Some? {
          results := results[i := v.value];
        } else {
          missing := missing + [i];
        }
      }
    }

    /** The replies of Redis for the misses, as far as they can be read. */
    method FromRedis(formulas: seq<string>, locale: string, w: World, fromMemory: map<nat, Value>, missing: seq<nat>,
                     ghost lru0: map<string, Value>, ghost redis0: map<string, Value>)
      returns (results: map<nat, Value>)
      requires Valid() && redis == redis0 - w.lost && FromEither(lru0, redis0, lru)
      requires MemoryHits(lru0, w, formulas, locale, |formulas|, fromMemory) && AllMissing(missing, |formulas|, fromMemory)
      modifies this`lru
      ensures Valid() && FromEither(lru0, redis0, lru)
      ensures HitsFound(lru0, redis0, true, w, formulas, locale, results)
    {
      results := fromMemory;
      var j := 0;
      while j < |missing| && j < w.readable
        invariant Valid() && j <= |missing| && FromEither(lru0, redis0, lru)
        invariant forall m :: m in results ==>
          m < |formulas| && Found(lru0, redis0, true, w, Key(formulas[m], locale)) == Some(results[m])
        invariant forall m :: m in fromMemory ==> m in results
        invariant forall n :: 0 <= n < j && missing[n] !in results ==> Key(formulas[missing[n]], locale) !in redis
      {
        var k := Key(formulas[missing[j]], locale);
        if k in redis {
          results := results[missing[j] := redis[k]];
          LruSet(k, redis[k]);
        }
        j := j + 1;
      }
    }

    /** Each of these values is that of a request with the same key as the formula at its position. */
    ghost predicate HitsFor(formulas: seq<string>, locale: string, results: map<nat, Value>)
      reads this`locales
    {
      forall i :: i in results ==> i < |formulas| && EntrySound(engine, locales, Key(formulas[i], locale), results[i])
    }

    /** Redis has all the entries afterwards, if it is ready and takes them, and memory at least the
        last one; neither has anything else that it did not have. */
    method Mset(entries: seq<Entry>, locale: string, written: bool)
      requires Valid() && AllCacheable(engine, entries, locale)
      modifies this
      ensures Valid() && locales == old(locales) + {locale}
      ensures GrownBy(old(lru), lru, entries, locale) && GrownBy(old(redis), redis, entries, locale)
      ensures entries != [] ==> Key(entries[|entries| - 1].formula, locale) in lru
      ensures if old(redisReady) && written then AllIn(redis, entries, locale) && old(redis).Keys <= redis.Keys
              else redis == old(redis)
    {
      UseLocale(locale);
      var piped := redis;
      for i := 0 to |entries|
        invariant Valid() && Sound(engine, locales, piped) && locales == old(locales) + {locale}
        invariant redis == old(redis) && redisReady == old(redisReady)
        invariant GrownBy(old(lru), lru, entries[..i], locale) && GrownBy(old(redis), piped, entries[..i], locale)
        invariant AllIn(piped, entries[..i], locale) && old(redis).Keys <= piped.Keys
        invariant i > 0 ==> Key(entries[i - 1].formula, locale) in lru
      {
        var k := Key(entries[i].formula, locale);
        assert EntrySound(engine, locales, k, entries[i].value);
        ghost var before := lru;
        LruSet(k, entries[i].value);
        EntryAdded(engine, old(lru), before, entries, locale, i, lru);
        EntryAdded(engine, old(redis), piped, entries, locale, i, piped[k := entries[i].value]);
        piped := piped[k := entries[i].value];
      }
      assert entries[..|entries|] == entries;
      if redisReady && written {
        redis := piped;
      }
    }
  }
}
