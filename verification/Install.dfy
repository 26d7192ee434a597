/** Installing an app for a tenant: the dependency closure, its installations and its default grants together. */
module Install {
  import opened Common
  import opened Grants
  import opened Rbac
  import Seed
  import Resolve
  import History
  import HistoryStore
  import DelegationStore

  datatype Module = Module(version: string, deps: seq<string>, perms: seq<Seed.Permission>)
  type Compiled = map<string, Module>

  datatype Outcome = Installed | NotCompiled | NotFound | Unresolved

  function DepsOf(mods: Compiled): Resolve.Mods {
    map k | k in mods :: mods[k].deps
  }

  function Releases(mods: Compiled, order: seq<string>): seq<History.Release>
    requires forall k :: k in order ==> k in mods
  {
    seq(|order|, i requires 0 <= i < |order| => History.Release(order[i], mods[order[i]].version))
  }

  function AllPerms(mods: Compiled, order: seq<string>): seq<Seed.Permission>
    requires forall k :: k in order ==> k in mods
  {
    if order == [] then [] else AllPerms(mods, order[..|order| - 1]) + mods[order[|order| - 1]].perms
  }

  lemma {:induction false} AllPermsHas(mods: Compiled, order: seq<string>, k: string, i: nat)
    requires (forall x :: x in order ==> x in mods) && k in order && i < |mods[k].perms|
    ensures mods[k].perms[i] in AllPerms(mods, order)
  {
    var n := |order| - 1;
    if order[n] != k {
      assert order == order[..n] + [order[n]];
      AllPermsHas(mods, order[..n], k, i);
    }
  }

  /** The dependency graph is the one the modules declare. */
  lemma DepsExact(mods: Compiled, a: string, b: string)
    ensures DepsOf(mods).Keys == mods.Keys
    ensures a in mods ==> (Resolve.Edge(DepsOf(mods), a, b) <==> b in mods[a].deps)
  {
  }

  lemma {:induction false} AllPermsExact(mods: Compiled, order: seq<string>, p: Seed.Permission)
    requires forall k :: k in order ==> k in mods
    ensures p in AllPerms(mods, order) <==> exists k :: k in order && p in mods[k].perms
  {
    if order != [] {
      var n := |order| - 1;
      assert order == order[..n] + [order[n]];
      AllPermsExact(mods, order[..n], p);
      if k :| k in order && p in mods[k].perms { assert k in order[..n] || k == order[n]; }
    }
  }

  lemma {:induction false} InstallAllRows(db: History.Db, tenant: string, releases: seq<History.Release>, app: string)
    requires forall r :: r in releases ==> r.app != app
    ensures var k := History.Key(tenant, app);
      History.Current(History.InstallAll(db, tenant, releases), k) == History.Current(db, k)
    decreases |releases|
  {
    if releases != [] {
      var first := releases[0];
      assert first in releases;
      InstallAllRows(History.InstallOne(db, History.Key(tenant, first.app), first.version), tenant, releases[1..], app);
    }
  }

  /** Every release of the list ends up enabled at its version, if no app is listed twice. */
  lemma {:induction false} InstallAllEnables(db: History.Db, tenant: string, releases: seq<History.Release>, i: nat)
    requires i < |releases| && forall a, b :: 0 <= a < b < |releases| ==> releases[a].app != releases[b].app
    ensures var db' := History.InstallAll(db, tenant, releases);
      var k := History.Key(tenant, releases[i].app);
      k in db'.installs && db'.installs[k] == History.Row(releases[i].version, true)
    decreases |releases|
  {
    var first := releases[0];
    var db1 := History.InstallOne(db, History.Key(tenant, first.app), first.version);
    if i == 0 {
      forall r | r in releases[1..] ensures r.app != first.app {
        var b :| 0 <= b < |releases[1..]| && releases[1..][b] == r;
        assert releases[b + 1] == r;
      }
      InstallAllRows(db1, tenant, releases[1..], first.app);
    } else {
      InstallAllEnables(db1, tenant, releases[1..], i - 1);
    }
  }

  /** Installing writes one log entry for each release, in order, and touches no other installation. */
  lemma {:induction false} InstallAllExact(db: History.Db, tenant: string, releases: seq<History.Release>)
    ensures var db' := History.InstallAll(db, tenant, releases);
      && |db'.events| == |db.events| + |releases| && db'.events[..|db.events|] == db.events && db'.open == db.open
      && (forall i :: 0 <= i < |releases| ==>
            db'.events[|db.events| + i]
              == History.Entry(History.Key(tenant, releases[i].app), History.Installed(releases[i].version)))
      && forall k: History.Key ::
           (k.tenant == tenant ==> forall i :: 0 <= i < |releases| ==> releases[i].app != k.app) ==>
             History.Current(db', k) == History.Current(db, k)
    decreases |releases|
  {
    if releases != [] {
      var first := releases[0];
      var db1 := History.InstallOne(db, History.Key(tenant, first.app), first.version);
      InstallAllExact(db1, tenant, releases[1..]);
      var db', n := History.InstallAll(db, tenant, releases), |db.events|;
      assert db'.events[..n] == db'.events[..n + 1][..n] == db.events;
      assert db'.events[n] == db'.events[..n + 1][n];
      forall i | 0 <= i < |releases|
        ensures db'.events[n + i] ==
          History.Entry(History.Key(tenant, releases[i].app), History.Installed(releases[i].version))
      {
        if i > 0 { assert releases[1..][i - 1] == releases[i]; }
      }
      forall k: History.Key
        | k.tenant == tenant ==> forall i :: 0 <= i < |releases| ==> releases[i].app != k.app
        ensures History.Current(db', k) == History.Current(db, k)
      {
        assert releases[0].app == first.app;
        assert forall i :: 0 <= i < |releases[1..]| ==> releases[1..][i] == releases[i + 1];
      }
    }
  }

  /** An app is enabled for the tenant at the compiled version and the admin role holds all of its permissions. */
  ghost predicate InPlace(mods: Compiled, db: History.Db, roles: Roles, tenant: string, x: string) {
    && x in mods && History.Key(tenant, x) in db.installs
    && db.installs[History.Key(tenant, x)] == History.Row(mods[x].version, true)
    && ("admin" in roles ==>
          forall i :: 0 <= i < |mods[x].perms| ==> Covers(roles["admin"].grants, mods[x].perms[i].code, All))
  }

  lemma ClosureInPlace(mods: Compiled, db: History.Db, roles: Roles, tenant: string, order: seq<string>, x: string)
    requires (forall k :: k in order ==> k in mods) && Distinct(order) && x in order
    ensures InPlace(mods, History.InstallAll(db, tenant, Releases(mods, order)),
      Seed.Installed(roles, AllPerms(mods, order)), tenant, x)
  {
    var n :| 0 <= n < |order| && order[n] == x;
    InstallAllEnables(db, tenant, Releases(mods, order), n);
    if "admin" in roles {
      var roles' := Seed.Installed(roles, AllPerms(mods, order));
      forall i | 0 <= i < |mods[x].perms| ensures Covers(roles'["admin"].grants, mods[x].perms[i].code, All) {
        AllPermsHas(mods, order, x, i);
        var j :| 0 <= j < |AllPerms(mods, order)| && AllPerms(mods, order)[j] == mods[x].perms[i];
        assert Seed.Gives(AllPerms(mods, order)[j], "admin", All);
        Seed.InstalledGives(roles, AllPerms(mods, order), "admin", mods[x].perms[i].code, All);
        assert RoleGives(roles', "admin", mods[x].perms[i].code, All);
      }
    }
  }

  /** Other installations are as they were, and the log has one entry more for each app, in order. */
  ghost predicate OnlyOrder(mods: Compiled, tenant: string, order: seq<string>, was: History.Db, now: History.Db)
    requires forall k :: k in order ==> k in mods
  {
    && (forall k: History.Key :: k.tenant != tenant || k.app !in order ==>
          History.Current(now, k) == History.Current(was, k))
    && |now.events| == |was.events| + |order| && now.events[..|was.events|] == was.events && now.open == was.open
    && forall i :: 0 <= i < |order| ==>
         now.events[|was.events| + i]
           == History.Entry(History.Key(tenant, order[i]), History.Installed(mods[order[i]].version))
  }

  lemma OrderExact(mods: Compiled, db: History.Db, tenant: string, order: seq<string>)
    requires forall k :: k in order ==> k in mods
    ensures OnlyOrder(mods, tenant, order, db, History.InstallAll(db, tenant, Releases(mods, order)))
  {
    var releases := Releases(mods, order);
    var db' := History.InstallAll(db, tenant, releases);
    InstallAllExact(db, tenant, releases);
    forall i | 0 <= i < |order|
      ensures db'.events[|db.events| + i]
        == History.Entry(History.Key(tenant, order[i]), History.Installed(mods[order[i]].version))
    {
      assert releases[i] == History.Release(order[i], mods[order[i]].version);
    }
    forall k: History.Key | k.tenant != tenant || k.app !in order
      ensures History.Current(db', k) == History.Current(db, k)
    {
      assert forall i :: 0 <= i < |releases| ==> releases[i].app == order[i] && order[i] in order;
    }
  }

  /** The transaction: row, grants and log entry of each module in turn. */
  method InstallOrder(mods: Compiled, order: seq<string>, tenant: string,
                      tables: HistoryStore.Tables, store: DelegationStore.Store)
    requires forall k :: k in order ==> k in mods
    modifies tables, store`roles
    ensures tables.View() == History.InstallAll(old(tables.View()), tenant, Releases(mods, order))
    ensures store.roles == Seed.Installed(old(store.roles), AllPerms(mods, order))
  {
    ghost var releases := Releases(mods, order);
    assert releases[0..] == releases;
    InstallNothing(store.roles);
    for i := 0 to |order|
      invariant History.InstallAll(tables.View(), tenant, releases[i..])
        == History.InstallAll(old(tables.View()), tenant, releases)
      invariant store.roles == Seed.Installed(old(store.roles), AllPerms(mods, order[..i]))
    {
      var m := mods[order[i]];
      tables.InstallModule(tenant, order[i], m.version);
      Seed.GrantOnInstall(store, m.perms);
      Seed.InstallsCommute(old(store.roles), AllPerms(mods, order[..i]), m.perms);
      assert order[..i + 1][..i] == order[..i];
      assert releases[i..][0] == releases[i] && releases[i..][1..] == releases[i + 1..];
    }
    assert order[..|order|] == order;
  }

  lemma InstallNothing(roles: Roles)
    ensures Seed.Installed(roles, []) == roles
  {
    forall r, p, s ensures RoleGives(Seed.Installed(roles, []), r, p, s) <==> RoleGives(roles, r, p, s) {
      Seed.InstalledGives(roles, [], r, p, s);
    }
    Seed.SameRoleGrants(Seed.Installed(roles, []), roles);
  }

  /** Install succeeds exactly when the app is compiled in and its dependencies resolve. Then everything it reaches is
      enabled at the compiled version with all its permissions held by the admin role; otherwise nothing changes. */
  method InstallApp(mods: Compiled, appId: string, catalogue: set<string>, tenant: string,
                    tables: HistoryStore.Tables, store: DelegationStore.Store)
      returns (outcome: Outcome, ghost order: seq<string>)
    modifies tables, store`roles
    ensures outcome == Installed <==> appId in mods && Resolve.Resolvable(DepsOf(mods), appId)
    ensures outcome == NotCompiled <==> appId !in mods && appId in catalogue
    ensures outcome == NotFound <==> appId !in mods && appId !in catalogue
    ensures outcome != Installed ==> tables.View() == old(tables.View()) && store.roles == old(store.roles)
    ensures outcome == Installed ==>
      && (forall x :: x in order <==> Resolve.Reaches(DepsOf(mods), appId, x)) && (forall x :: x in order ==> x in mods)
      && order != [] && order[|order| - 1] == appId
      && (forall i, d :: 0 <= i < |order| && d in mods[order[i]].deps ==> d in order[..i])
      && tables.View() == History.Do(old(tables.View()), History.Install(tenant, Releases(mods, order)))
      && store.roles == Seed.Installed(old(store.roles), AllPerms(mods, order))
      && (forall x :: x in order ==> InPlace(mods, tables.View(), store.roles, tenant, x))
      && Distinct(order) && OnlyOrder(mods, tenant, order, old(tables.View()), tables.View())
  {
    order := [];
    if appId !in mods {
      outcome := if appId in catalogue then NotCompiled else NotFound;
      return;
    }
    var resolved := Resolve.ResolveOrder(DepsOf(mods), appId);
    if resolved.None? { return Unresolved, []; }
    order := resolved.value;
    InstallOrder(mods, resolved.value, tenant, tables, store);
    OrderExact(mods, old(tables.View()), tenant, order);
    forall x | x in order ensures InPlace(mods, tables.View(), store.roles, tenant, x) {
      ClosureInPlace(mods, old(tables.View()), old(store.roles), tenant, order, x);
    }
    outcome := Installed;
  }
}
