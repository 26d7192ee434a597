/** The per-process caches with a time limit: grants, the app gate and tenant state. Reads release the lock while the
    database is asked, writes invalidate, and the bus delivers an invalidation to other processes at most once. */
module Caches {
  import opened Common

  type Key = string
  type Value = nat
  type Db = map<Key, Value>
  type Proc = nat

  const MAX_ENTRIES := 10000

  /** Grants and gate drop every key of a tenant by prefix, tenant state drops the one key. */
  datatype Kind = Kind(ttl: nat, byPrefix: bool)

  const GRANTS := Kind(30, true)
  const GATE := Kind(15, true)
  const TENANT_STATE := Kind(30, false)

  predicate Drops(kind: Kind, key: Key, tenant: string) {
    if kind.byPrefix then HasPrefix(key, tenant + ":") else key == tenant
  }

  function KeyOf(tenant: string, subject: string): Key {
    tenant + ":" + subject
  }

  /** Tenant ids hold no colon, so invalidating one tenant drops its own keys and no other's. */
  lemma OwnTenantOnly(kind: Kind, t: string, subject: string, tenant: string)
    requires kind.byPrefix && ':' !in t && ':' !in tenant
    ensures Drops(kind, KeyOf(t, subject), tenant) <==> t == tenant
  {
    var key := KeyOf(t, subject);
    FirstColon(t, subject);
    assert key[..|t| + 1] == t + ":";
    if Drops(kind, key, tenant) {
      var rest := key[|tenant| + 1..];
      assert key == (tenant + ":") + rest;
      FirstColon(tenant, rest);
      assert key[..|t|] == t && (tenant + ":" + rest)[..|tenant|] == tenant;
    }
  }

  // ---- one cache ------------------------------------------------------------------------------------------------

  function Dropping<E>(kind: Kind, cache: map<Key, E>, tenant: string): map<Key, E> {
    map k | k in cache && !Drops(kind, k, tenant) :: cache[k]
  }

  /** Storing empties a full cache first. */
  function Storing<E>(cache: map<Key, E>, key: Key, e: E): map<Key, E> {
    (if |cache| >= MAX_ENTRIES then map[] else cache)[key := e]
  }

  // ---- processes, reads in flight, messages ----------------------------------------------------------------------

  /** A cached value and when it was stored; which version of the database it was read from, and which was the
      current one when it was stored. */
  datatype Entry = Entry(value: Value, at: nat, seen: nat, latest: nat)

  /** A read that missed the cache: not yet asked, or asked and holding the answer. */
  datatype Phase = Missed | Holding(value: Value, seen: nat)
  datatype Read = Read(proc: Proc, key: Key, phase: Phase)
  datatype Message = Message(proc: Proc, tenant: string)

  /** Every version of the database so far, the last being the current one. */
  datatype System = System(now: nat, versions: seq<Db>, caches: map<Proc, map<Key, Entry>>, asked: map<nat, Read>,
                           bus: map<nat, Message>)

  datatype Step =
    | Tick(amount: nat)
    | Lookup(id: nat, proc: Proc, key: Key)
    | Ask(id: nat)
    | Fail(id: nat)
    | Store(id: nat)
    | Write(db: Db)
    | Invalidate(proc: Proc, tenant: string)
    | Publish(id: nat, proc: Proc, tenant: string)
    | Deliver(id: nat)
    | Lose(id: nat)

  datatype Served = Served(proc: Proc, key: Key, entry: Entry)

  function ValueIn(db: Db, key: Key): Value {
    if key in db then db[key] else 0
  }

  function CacheOf(s: System, proc: Proc): map<Key, Entry> {
    if proc in s.caches then s.caches[proc] else map[]
  }

  predicate Hit(kind: Kind, s: System, proc: Proc, key: Key) {
    key in CacheOf(s, proc) && s.now - CacheOf(s, proc)[key].at < kind.ttl
  }

  predicate CanStore(s: System, id: nat) {
    id in s.asked && s.asked[id].phase.Holding?
  }

  function Without<V>(m: map<nat, V>, id: nat): map<nat, V> {
    map i | i in m && i != id :: m[i]
  }

  function DoInvalidate(kind: Kind, s: System, proc: Proc, tenant: string): System {
    s.(caches := s.caches[proc := Dropping(kind, CacheOf(s, proc), tenant)])
  }

  function EntryFor(s: System, phase: Phase): Entry
    requires phase.Holding?
  {
    Entry(phase.value, s.now, phase.seen, if s.versions == [] then 0 else |s.versions| - 1)
  }

  function DoStore(s: System, id: nat): System
    requires CanStore(s, id)
  {
    var r := s.asked[id];
    s.(caches := s.caches[r.proc := Storing(CacheOf(s, r.proc), r.key, EntryFor(s, r.phase))],
       asked := Without(s.asked, id))
  }

  function Do(kind: Kind, s: System, step: Step): System {
    match step
    case Tick(amount) => s.(now := s.now + amount)
    case Lookup(id, proc, key) =>
      if id in s.asked || Hit(kind, s, proc, key) then s else s.(asked := s.asked[id := Read(proc, key, Missed)])
    case Ask(id) =>
      if id in s.asked && s.asked[id].phase.Missed? && s.versions != []
      then
        var seen := |s.versions| - 1;
        s.(asked := s.asked[id := s.asked[id].(phase := Holding(ValueIn(s.versions[seen], s.asked[id].key), seen))])
      else s
    case Fail(id) => s.(asked := Without(s.asked, id))
    case Store(id) => if CanStore(s, id) then DoStore(s, id) else s
    case Write(db) => s.(versions := s.versions + [db])
    case Invalidate(proc, tenant) => DoInvalidate(kind, s, proc, tenant)
    case Publish(id, proc, tenant) => if id in s.bus then s else s.(bus := s.bus[id := Message(proc, tenant)])
    case Deliver(id) =>
      if id in s.bus then DoInvalidate(kind, s.(bus := Without(s.bus, id)), s.bus[id].proc, s.bus[id].tenant) else s
    case Lose(id) => s.(bus := Without(s.bus, id))
  }

  /** What the step answers to its caller: a lookup that hits, or a read that has just been stored. */
  function Serves(kind: Kind, s: System, step: Step): Option<Served> {
    match step
    case Lookup(_, proc, key) =>
      if Hit(kind, s, proc, key) then Some(Served(proc, key, CacheOf(s, proc)[key])) else None
    case Store(id) =>
      if CanStore(s, id) then
        var r := s.asked[id];
        Some(Served(r.proc, r.key, EntryFor(s, r.phase)))
      else None
    case _ => None
  }

  function Run(kind: Kind, s: System, steps: seq<Step>): System
    decreases |steps|
  {
    if steps == [] then s else Run(kind, Do(kind, s, steps[0]), steps[1..])
  }

  function Boot(db: Db): System {
    System(0, [db], map[], map[], map[])
  }

  // ---- what every run keeps ----------------------------------------------------------------------------------------

  /** This version of the database gives the key this value. */
  predicate TrueIn(s: System, key: Key, value: Value, seen: nat) {
    seen < |s.versions| && ValueIn(s.versions[seen], key) == value
  }

  /** The value is what the database said in a version no later than the one current when it was stored. */
  predicate GoodEntry(s: System, key: Key, e: Entry) {
    e.at <= s.now && e.seen <= e.latest < |s.versions| && TrueIn(s, key, e.value, e.seen)
  }

  predicate GoodCache(s: System, cache: map<Key, Entry>) {
    |cache| <= MAX_ENTRIES && forall k :: k in cache ==> GoodEntry(s, k, cache[k])
  }

  predicate GoodRead(s: System, r: Read) {
    r.phase.Holding? ==> TrueIn(s, r.key, r.phase.value, r.phase.seen)
  }

  predicate Good(s: System) {
    && s.versions != []
    && (forall p :: p in s.caches ==> GoodCache(s, s.caches[p]))
    && (forall id :: id in s.asked ==> GoodRead(s, s.asked[id]))
  }

  lemma {:induction false} DroppingSmaller<E>(kind: Kind, cache: map<Key, E>, tenant: string)
    ensures |Dropping(kind, cache, tenant)| <= |cache|
  {
    SubsetSize(Dropping(kind, cache, tenant).Keys, cache.Keys);
  }

  lemma {:induction false} SubsetSize<T>(a: set<T>, b: set<T>)
    requires a <= b
    ensures |a| <= |b|
  {
    if a != {} {
      var x :| x in a;
      SubsetSize(a - {x}, b - {x});
    }
  }

  lemma StoringSize<E>(cache: map<Key, E>, key: Key, e: E)
    requires |cache| <= MAX_ENTRIES
    ensures |Storing(cache, key, e)| <= MAX_ENTRIES
  {
    if |cache| < MAX_ENTRIES {
      assert cache[key := e].Keys == cache.Keys + {key};
    } else {
      assert Storing(cache, key, e).Keys == {key};
    }
  }

  lemma InvalidateGood(kind: Kind, s: System, proc: Proc, tenant: string)
    requires Good(s)
    ensures Good(DoInvalidate(kind, s, proc, tenant))
  {
    DroppingSmaller(kind, CacheOf(s, proc), tenant);
  }

  lemma StoringGood(s: System, cache: map<Key, Entry>, key: Key, e: Entry)
    requires GoodCache(s, cache) && GoodEntry(s, key, e)
    ensures GoodCache(s, Storing(cache, key, e))
  {
    StoringSize(cache, key, e);
  }

  lemma StoreGood(s: System, id: nat)
    requires Good(s) && CanStore(s, id)
    ensures Good(DoStore(s, id))
  {
    var s', r := DoStore(s, id), s.asked[id];
    assert GoodRead(s, r);
    assert GoodCache(s, CacheOf(s, r.proc));
    StoringGood(s, CacheOf(s, r.proc), r.key, EntryFor(s, r.phase));
    forall p | p in s'.caches ensures GoodCache(s', s'.caches[p]) {
      assert GoodCache(s, s'.caches[p]);
      forall k | k in s'.caches[p] ensures GoodEntry(s', k, s'.caches[p][k]) {
        assert GoodEntry(s, k, s'.caches[p][k]);
      }
    }
    forall i | i in s'.asked ensures GoodRead(s', s'.asked[i]) { assert GoodRead(s, s.asked[i]); }
  }

  lemma WriteGood(s: System, db: Db)
    requires Good(s)
    ensures Good(s.(versions := s.versions + [db]))
  {
    var s' := s.(versions := s.versions + [db]);
    forall key, value, seen | TrueIn(s, key, value, seen) ensures TrueIn(s', key, value, seen) {}
    forall p | p in s'.caches ensures GoodCache(s', s'.caches[p]) { assert GoodCache(s, s.caches[p]); }
    forall id | id in s'.asked ensures GoodRead(s', s'.asked[id]) { assert GoodRead(s, s.asked[id]); }
  }

  lemma DoGood(kind: Kind, s: System, step: Step)
    requires Good(s)
    ensures Good(Do(kind, s, step))
  {
    match step
    case Invalidate(proc, tenant) => InvalidateGood(kind, s, proc, tenant);
    case Deliver(id) =>
      if id in s.bus { InvalidateGood(kind, s.(bus := Without(s.bus, id)), s.bus[id].proc, s.bus[id].tenant); }
    case Store(id) => if CanStore(s, id) { StoreGood(s, id); }
    case Write(db) => WriteGood(s, db);
    case _ =>
  }

  lemma {:induction false} RunGood(kind: Kind, s: System, steps: seq<Step>)
    requires Good(s)
    ensures Good(Run(kind, s, steps))
    decreases |steps|
  {
    if steps != [] {
      DoGood(kind, s, steps[0]);
      RunGood(kind, Do(kind, s, steps[0]), steps[1..]);
    }
  }

  /** Under any interleaving over any number of processes, with any messages lost: a served value is what the database
      said in a version no later than the one current when it was stored, it was stored less than the time limit ago,
      and no cache outgrows its bound. */
  lemma ServedIsTrue(kind: Kind, db: Db, steps: seq<Step>, step: Step)
    requires kind.ttl > 0
    ensures var s := Run(kind, Boot(db), steps);
      && (forall p :: p in s.caches ==> |s.caches[p]| <= 10_000)
      && var out := Serves(kind, s, step);
         out.Some? ==> GoodEntry(s, out.value.key, out.value.entry) && s.now - out.value.entry.at < kind.ttl
  {
    RunGood(kind, Boot(db), steps);
    var s := Run(kind, Boot(db), steps);
    if step.Lookup? && step.proc in s.caches { assert GoodCache(s, s.caches[step.proc]); }
    if step.Store? && CanStore(s, step.id) { assert GoodRead(s, s.asked[step.id]); }
  }

  // ---- freshness -----------------------------------------------------------------------------------------------

  /** A read of the key is in flight that has asked the database before this version. */
  predicate OldRead(s: System, id: nat, proc: Proc, key: Key, floor: nat) {
    id in s.asked && s.asked[id].proc == proc && s.asked[id].key == key
    && s.asked[id].phase.Holding? && s.asked[id].phase.seen < floor
  }

  ghost predicate NoOldRead(s: System, proc: Proc, key: Key, floor: nat) {
    forall id :: !OldRead(s, id, proc, key, floor)
  }

  /** Nothing read before this version is in flight, and what is cached from before it was stored by this time. */
  ghost predicate OldBy(s: System, proc: Proc, key: Key, floor: nat, time: int) {
    && floor < |s.versions|
    && NoOldRead(s, proc, key, floor)
    && (key in CacheOf(s, proc) && CacheOf(s, proc)[key].seen < floor ==> CacheOf(s, proc)[key].at <= time)
  }

  lemma DoOldBy(kind: Kind, s: System, step: Step, proc: Proc, key: Key, floor: nat, time: int)
    requires OldBy(s, proc, key, floor, time)
    ensures OldBy(Do(kind, s, step), proc, key, floor, time)
  {
    var s' := Do(kind, s, step);
    forall id ensures !OldRead(s', id, proc, key, floor) { assert !OldRead(s, id, proc, key, floor); }
    if step.Store? && CanStore(s, step.id) { assert !OldRead(s, step.id, proc, key, floor); }
  }

  lemma {:induction false} RunOldBy(kind: Kind, s: System, steps: seq<Step>, proc: Proc, key: Key, floor: nat,
                                    time: int)
    requires OldBy(s, proc, key, floor, time)
    ensures OldBy(Run(kind, s, steps), proc, key, floor, time)
    decreases |steps|
  {
    if steps != [] {
      DoOldBy(kind, s, steps[0], proc, key, floor, time);
      RunOldBy(kind, Do(kind, s, steps[0]), steps[1..], proc, key, floor, time);
    }
  }

  /** The answer is about this key of this process and comes from before the version. */
  predicate Stale(out: Option<Served>, proc: Proc, key: Key, floor: nat) {
    out.Some? && out.value.proc == proc && out.value.key == key && out.value.entry.seen < floor
  }

  lemma ServedOldBy(kind: Kind, s: System, step: Step, proc: Proc, key: Key, floor: nat, time: int)
    requires OldBy(s, proc, key, floor, time)
    ensures Stale(Serves(kind, s, step), proc, key, floor) ==>
      Hit(kind, s, proc, key) && CacheOf(s, proc)[key].at <= time
  {
    if step.Store? && CanStore(s, step.id) { assert !OldRead(s, step.id, proc, key, floor); }
  }

  /** After an invalidation, no later answer for a dropped key is older than the invalidation exactly when no read of
      the key that had asked the database earlier was in flight; whether it ran locally or came over the bus. */
  lemma FreshAfterInvalidation(kind: Kind, s: System, proc: Proc, tenant: string, key: Key)
    requires Good(s) && Drops(kind, key, tenant)
    ensures var floor := |s.versions| - 1;
      NoOldRead(s, proc, key, floor) <==>
      (forall later, step ::
        !Stale(Serves(kind, Run(kind, DoInvalidate(kind, s, proc, tenant), later), step), proc, key, floor))
  {
    var floor := |s.versions| - 1;
    var s1 := DoInvalidate(kind, s, proc, tenant);
    if NoOldRead(s, proc, key, floor) {
      forall id ensures !OldRead(s1, id, proc, key, floor) { assert !OldRead(s, id, proc, key, floor); }
      forall later, step ensures !Stale(Serves(kind, Run(kind, s1, later), step), proc, key, floor) {
        RunOldBy(kind, s1, later, proc, key, floor, -1);
        ServedOldBy(kind, Run(kind, s1, later), step, proc, key, floor, -1);
      }
    } else {
      var id :| OldRead(s, id, proc, key, floor);
      assert Run(kind, s1, []) == s1;
      assert Stale(Serves(kind, Run(kind, s1, []), Store(id)), proc, key, floor);
    }
  }

  /** Without any invalidation, once the time limit has passed no answer for the key is older than the current version
      exactly when no read of the key that had asked the database earlier is in flight. */
  lemma FreshAfterTtl(kind: Kind, s: System, proc: Proc, key: Key)
    requires Good(s)
    ensures var floor := |s.versions| - 1;
      NoOldRead(s, proc, key, floor) <==>
      forall later, step :: Run(kind, s, later).now >= s.now + kind.ttl
                            ==> !Stale(Serves(kind, Run(kind, s, later), step), proc, key, floor)
  {
    var floor := |s.versions| - 1;
    if NoOldRead(s, proc, key, floor) {
      if proc in s.caches { assert GoodCache(s, s.caches[proc]); }
      forall later, step | Run(kind, s, later).now >= s.now + kind.ttl
        ensures !Stale(Serves(kind, Run(kind, s, later), step), proc, key, floor)
      {
        RunOldBy(kind, s, later, proc, key, floor, s.now);
        ServedOldBy(kind, Run(kind, s, later), step, proc, key, floor, s.now);
      }
    } else {
      var id :| OldRead(s, id, proc, key, floor);
      var wait := Tick(kind.ttl);
      RunOne(kind, s, wait);
      assert Stale(Serves(kind, Run(kind, s, [wait]), Store(id)), proc, key, floor);
    }
  }

  lemma RunOne(kind: Kind, s: System, step: Step)
    ensures Run(kind, s, [step]) == Do(kind, s, step)
  {
    assert [step][1..] == [];
  }

  // ---- what the caches are and keep ------------------------------------------------------------------------------

  /** What an invalidation leaves, as it is: of grants and of the gate the keys that do not start with the tenant and a
      colon, of tenant states the keys other than the tenant. */
  lemma DroppingExact<E>(kind: Kind, cache: map<Key, E>, tenant: string, key: Key)
    requires kind == GRANTS || kind == GATE || kind == TENANT_STATE
    ensures var left := Dropping(kind, cache, tenant);
      && (kind == TENANT_STATE ==> (key in left <==> key in cache && key != tenant))
      && (kind != TENANT_STATE ==> (key in left <==> key in cache && !(tenant + ":" <= key)))
      && (key in left ==> left[key] == cache[key])
  {
    assert HasPrefix(key, tenant + ":") <==> tenant + ":" <= key;
  }

  /** Storing keeps what is there while there is room, and what is stored. */
  lemma StoringExact<E>(cache: map<Key, E>, key: Key, e: E, other: Key)
    requires other != key
    ensures var after := Storing(cache, key, e);
      && key in after && after[key] == e
      && (other in after <==> other in cache && |cache| < 10_000) && (other in after ==> after[other] == cache[other])
  {
  }

  /** While only time passes, an answer that was just stored is served to every lookup of its process for exactly the
      time limit: 15 seconds for the gate, 30 for the others. A lookup that is not served asks the database. */
  lemma ServedForTtl(kind: Kind, s: System, id: nat, seconds: nat, next: nat)
    requires CanStore(s, id) && next !in Do(kind, DoStore(s, id), Tick(seconds)).asked
    ensures var r, t := s.asked[id], Do(kind, DoStore(s, id), Tick(seconds));
      var out := Serves(kind, t, Lookup(next, r.proc, r.key));
      && (out.Some? <==> seconds < kind.ttl)
      && (kind == GATE ==> (out.Some? <==> seconds < 15))
      && (kind == GRANTS || kind == TENANT_STATE ==> (out.Some? <==> seconds < 30))
      && (out.Some? ==> out.value.entry.value == r.phase.value && out.value.proc == r.proc && out.value.key == r.key)
      && (out.None? ==> next in Do(kind, t, Lookup(next, r.proc, r.key)).asked)
  {
  }
}
