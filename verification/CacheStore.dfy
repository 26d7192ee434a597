/** One process's cache as the stores keep it: entries hold a value and a time. What a method does to it is what the
    matching step of Caches does to the tagged cache of that process, with the tags left out. */
module CacheStore {
  import opened Common
  import opened Caches

  datatype Stored = Stored(value: Value, at: nat)

  function Plain(cache: map<Key, Entry>): map<Key, Stored> {
    map k | k in cache :: Stored(cache[k].value, cache[k].at)
  }

  /** This read in flight holds this answer at this time. */
  predicate Answers(s: System, id: nat, key: Key, value: Value, now: nat) {
    CanStore(s, id) && s.asked[id].key == key && s.asked[id].phase.value == value && s.now == now
  }

  class Store {
    const kind: Kind
    var cache: map<Key, Stored>

    constructor (kind: Kind)
      ensures this.kind == kind && cache == map[]
    {
      this.kind, cache := kind, map[];
    }

    /** This cache is the process's cache in the system. */
    ghost predicate Mirrors(s: System, proc: Proc)
      reads this
    {
      cache == Plain(CacheOf(s, proc))
    }

    /** The part under the lock before the database is asked. */
    method Lookup(key: Key, now: nat) returns (found: Option<Value>)
      ensures forall s, proc, id :: Mirrors(s, proc) && s.now == now ==>
        match Serves(kind, s, Step.Lookup(id, proc, key))
        case Some(out) => found == Some(out.entry.value)
        case None => found == None
    {
      if key in cache && now - cache[key].at < kind.ttl { return Some(cache[key].value); }
      found := None;
    }

    /** The part under the lock after the database has answered. */
    method Keep(key: Key, value: Value, now: nat)
      modifies this
      ensures |old(cache)| <= MAX_ENTRIES ==> |cache| <= MAX_ENTRIES
      ensures forall s, id :: Answers(s, id, key, value, now) && old(Mirrors(s, s.asked[id].proc))
                ==> Mirrors(DoStore(s, id), s.asked[id].proc)
    {
      StoringSizeIfBounded(cache, key, Stored(value, now));
      if |cache| >= MAX_ENTRIES { cache := map[]; }
      cache := cache[key := Stored(value, now)];
      forall s, id | Answers(s, id, key, value, now) && old(Mirrors(s, s.asked[id].proc))
        ensures Mirrors(DoStore(s, id), s.asked[id].proc)
      {
        PlainStoring(CacheOf(s, s.asked[id].proc), key, EntryFor(s, s.asked[id].phase));
      }
    }

    /** InvalidateLocal: by prefix, a loop over the keys in no given order; by tenant, one deletion. */
    method InvalidateLocal(tenant: string)
      modifies this
      ensures forall k :: k in cache <==> k in old(cache) && !Drops(kind, k, tenant)
      ensures forall s, proc :: old(Mirrors(s, proc)) ==> Mirrors(DoInvalidate(kind, s, proc, tenant), proc)
    {
      ghost var was := cache;
      if kind.byPrefix {
        var todo := cache.Keys;
        while todo != {}
          invariant todo <= was.Keys
          invariant cache == map k | k in was && (k in todo || !Drops(kind, k, tenant)) :: was[k]
        {
          var k :| k in todo;
          todo := todo - {k};
          if HasPrefix(k, tenant + ":") { cache := cache - {k}; }
        }
      } else {
        cache := cache - {tenant};
      }
      assert cache == Dropping(kind, was, tenant);
      forall s, proc | old(Mirrors(s, proc)) ensures Mirrors(DoInvalidate(kind, s, proc, tenant), proc) {
        PlainDropping(kind, CacheOf(s, proc), tenant);
      }
    }
  }

  lemma StoringSizeIfBounded<E>(cache: map<Key, E>, key: Key, e: E)
    ensures |cache| <= MAX_ENTRIES ==> |Storing(cache, key, e)| <= MAX_ENTRIES
  {
    if |cache| <= MAX_ENTRIES { StoringSize(cache, key, e); }
  }

  lemma PlainStoring(cache: map<Key, Entry>, key: Key, e: Entry)
    ensures Plain(Storing(cache, key, e)) == Storing(Plain(cache), key, Stored(e.value, e.at))
  {
    assert Plain(cache).Keys == cache.Keys;
  }

  lemma PlainDropping(kind: Kind, cache: map<Key, Entry>, tenant: string)
    ensures Plain(Dropping(kind, cache, tenant)) == Dropping(kind, Plain(cache), tenant)
  {
  }
}
