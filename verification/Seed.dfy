/** Default roles and default grants: what creating a tenant and installing a module write. */
module Seed {
  import opened Common
  import opened Hops
  import opened Grants
  import opened Rbac
  import opened Delegation
  import DelegationStore

  datatype Permission = Permission(code: Perm, ownScope: bool, defaultRoles: seq<string>)

  /** The default "role" or "role:scope" is cut at its first colon. */
  function TargetRole(dr: string): RoleCode {
    dr[..IndexFrom(dr, ':', 0)]
  }

  function TargetScope(dr: string, ownScope: bool): Scope {
    var i := IndexFrom(dr, ':', 0);
    if i < |dr| && dr[i + 1..] == "own" && ownScope then Own else All
  }

  /** The forms of a default: a bare role gives all; "role:own" gives own where own scope is supported and all where
      it is not; any other suffix gives all. */
  lemma DefaultForms(role: string, suffix: string, ownScope: bool)
    requires ':' !in role
    ensures TargetRole(role) == role && TargetScope(role, ownScope) == All
    ensures TargetRole(role + ":" + suffix) == role
    ensures TargetScope(role + ":" + suffix, ownScope) == Own <==> suffix == "own" && ownScope
  {
    var dr := role + ":" + suffix;
    FirstColon(role, suffix);
    assert dr[..|role|] == role && dr[|role| + 1..] == suffix;
    forall k | 0 <= k < |role| ensures role[k] != ':' { assert role[k] in role; }
    assert IndexFrom(role, ':', 0) == |role|;
    assert role[..|role|] == role;
  }

  /** The permission's declaration gives the role its code with this scope. */
  predicate Gives(perm: Permission, role: RoleCode, s: Scope) {
    role == "admin"
    || exists i :: 0 <= i < |perm.defaultRoles| && TargetRole(perm.defaultRoles[i]) == role
         && (s == All ==> TargetScope(perm.defaultRoles[i], perm.ownScope) == All)
  }

  /** The default names this role and, as far as it asks for own and own is supported, gives own. */
  ghost predicate NamesRole(dr: string, role: RoleCode, ownScope: bool, s: Scope) {
    dr == role || exists suffix :: dr == role + ":" + suffix && (s == All ==> !(suffix == "own" && ownScope))
  }

  /** A permission goes to the admin role for all rows, and to the roles its defaults name. */
  lemma GivesExact(perm: Permission, role: RoleCode, s: Scope)
    requires ':' !in role
    ensures Gives(perm, role, s) <==>
      role == "admin" || exists dr :: dr in perm.defaultRoles && NamesRole(dr, role, perm.ownScope, s)
  {
    forall dr ensures NamesRole(dr, role, perm.ownScope, s) <==>
      TargetRole(dr) == role && (s == All ==> TargetScope(dr, perm.ownScope) == All)
    {
      NamesExact(dr, role, perm.ownScope, s);
    }
    if dr :| dr in perm.defaultRoles && NamesRole(dr, role, perm.ownScope, s) {
      var i :| 0 <= i < |perm.defaultRoles| && perm.defaultRoles[i] == dr;
    }
  }

  lemma NamesExact(dr: string, role: RoleCode, ownScope: bool, s: Scope)
    requires ':' !in role
    ensures NamesRole(dr, role, ownScope, s) <==>
      TargetRole(dr) == role && (s == All ==> TargetScope(dr, ownScope) == All)
  {
    DefaultForms(role, "", ownScope);
    if suffix :| dr == role + ":" + suffix && (s == All ==> !(suffix == "own" && ownScope)) {
      DefaultForms(role, suffix, ownScope);
    }
    if TargetRole(dr) == role && (s == All ==> TargetScope(dr, ownScope) == All) && dr != role {
      var i := IndexFrom(dr, ':', 0);
      var suffix := dr[i + 1..];
      assert dr == role + ":" + suffix;
      DefaultForms(role, suffix, ownScope);
    }
  }

  predicate Declares(perms: seq<Permission>, role: RoleCode, p: Perm, s: Scope) {
    exists i :: 0 <= i < |perms| && perms[i].code == p && Gives(perms[i], role, s)
  }

  /** What a list of permission definitions grants a role. */
  function Declared(perms: seq<Permission>, role: RoleCode): Grants {
    map p | p in (set i | 0 <= i < |perms| && Gives(perms[i], role, Own) :: perms[i].code)
      :: if Declares(perms, role, p, All) then All else Own
  }

  lemma DeclaredCovers(perms: seq<Permission>, role: RoleCode, p: Perm, s: Scope)
    ensures Covers(Declared(perms, role), p, s) <==> Declares(perms, role, p, s)
  {
    if i :| 0 <= i < |perms| && perms[i].code == p && Gives(perms[i], role, s) {
      assert Gives(perms[i], role, Own);
    }
  }

  /** Installing joins every role with what is declared for it. */
  function Installed(roles: Roles, perms: seq<Permission>): Roles {
    map r | r in roles :: roles[r].(grants := Join(roles[r].grants, Declared(perms, r)))
  }

  lemma InstalledGives(roles: Roles, perms: seq<Permission>, r: RoleCode, p: Perm, s: Scope)
    ensures RoleGives(Installed(roles, perms), r, p, s) <==>
            r in roles && (RoleGives(roles, r, p, s) || Declares(perms, r, p, s))
  {
    if r in roles {
      JoinCovers(roles[r].grants, Declared(perms, r), p, s);
      DeclaredCovers(perms, r, p, s);
    }
  }

  lemma SameRoleGrants(a: Roles, b: Roles)
    requires SameShape(a, b) && forall r, p, s :: RoleGives(a, r, p, s) <==> RoleGives(b, r, p, s)
    ensures a == b
  {
    forall r | r in a ensures a[r] == b[r] {
      forall p, s ensures Covers(a[r].grants, p, s) <==> Covers(b[r].grants, p, s) {
        assert RoleGives(a, r, p, s) <==> RoleGives(b, r, p, s);
      }
      Antisymmetry(a[r].grants, b[r].grants);
    }
  }

  lemma DeclaresConcat(a: seq<Permission>, b: seq<Permission>, r: RoleCode, p: Perm, s: Scope)
    ensures Declares(a + b, r, p, s) <==> Declares(a, r, p, s) || Declares(b, r, p, s)
  {
    if i :| 0 <= i < |a| && a[i].code == p && Gives(a[i], r, s) { assert (a + b)[i] == a[i]; }
    if i :| 0 <= i < |b| && b[i].code == p && Gives(b[i], r, s) { assert (a + b)[|a| + i] == b[i]; }
  }

  /** Two installs, in either order, are one install of both lists. */
  lemma InstallsCommute(roles: Roles, a: seq<Permission>, b: seq<Permission>)
    ensures Installed(Installed(roles, a), b) == Installed(roles, a + b)
    ensures Installed(Installed(roles, a), b) == Installed(Installed(roles, b), a)
  {
    forall r, p, s
      ensures RoleGives(Installed(Installed(roles, a), b), r, p, s) <==> RoleGives(Installed(roles, a + b), r, p, s)
      ensures RoleGives(Installed(Installed(roles, b), a), r, p, s) <==> RoleGives(Installed(roles, a + b), r, p, s)
    {
      InstalledGives(roles, a, r, p, s);
      InstalledGives(roles, b, r, p, s);
      InstalledGives(Installed(roles, a), b, r, p, s);
      InstalledGives(Installed(roles, b), a, r, p, s);
      InstalledGives(roles, a + b, r, p, s);
      DeclaresConcat(a, b, r, p, s);
    }
    SameRoleGrants(Installed(Installed(roles, a), b), Installed(roles, a + b));
    SameRoleGrants(Installed(Installed(roles, b), a), Installed(roles, a + b));
  }

  /** The order and the multiplicity of the definitions do not matter; so a repeated install changes nothing. */
  lemma InstallUnordered(roles: Roles, a: seq<Permission>, b: seq<Permission>)
    requires forall x :: x in a <==> x in b
    ensures Installed(roles, a) == Installed(roles, b)
    ensures Installed(Installed(roles, a), b) == Installed(roles, a)
  {
    forall r, p, s ensures Declares(a, r, p, s) <==> Declares(b, r, p, s) {
      if i :| 0 <= i < |a| && a[i].code == p && Gives(a[i], r, s) { assert a[i] in b; }
      if i :| 0 <= i < |b| && b[i].code == p && Gives(b[i], r, s) { assert b[i] in a; }
    }
    forall r, p, s
      ensures RoleGives(Installed(roles, a), r, p, s) <==> RoleGives(Installed(roles, b), r, p, s)
      ensures RoleGives(Installed(Installed(roles, a), b), r, p, s) <==> RoleGives(Installed(roles, a), r, p, s)
    {
      InstalledGives(roles, a, r, p, s);
      InstalledGives(roles, b, r, p, s);
      InstalledGives(Installed(roles, a), b, r, p, s);
    }
    SameRoleGrants(Installed(roles, a), Installed(roles, b));
    SameRoleGrants(Installed(Installed(roles, a), b), Installed(roles, a));
  }

  // ---- the writes -------------------------------------------------------------------------------------------

  /** One upsert: nothing for a role that does not exist, and all is never narrowed to own. */
  method Grant(store: DelegationStore.Store, role: RoleCode, perm: Perm, scope: Scope)
    modifies store`roles
    ensures SameShape(old(store.roles), store.roles)
    ensures forall r, p, s :: RoleGives(store.roles, r, p, s) <==>
      RoleGives(old(store.roles), r, p, s)
        || (r == role && r in old(store.roles) && p == perm && (s == All ==> scope == All))
  {
    if role in store.roles {
      var grants := store.roles[role].grants;
      var wider := if perm in grants && grants[perm] == All then All else scope;
      store.roles := store.roles[role := store.roles[role].(grants := grants[perm := wider])];
    }
  }

  method GrantOne(store: DelegationStore.Store, perm: Permission)
    modifies store`roles
    ensures SameShape(old(store.roles), store.roles)
    ensures forall r, p, s :: RoleGives(store.roles, r, p, s) <==>
      RoleGives(old(store.roles), r, p, s) || (r in old(store.roles) && p == perm.code && Gives(perm, r, s))
  {
    Grant(store, "admin", perm.code, All);
    ghost var was := old(store.roles);
    for i := 0 to |perm.defaultRoles|
      invariant SameShape(was, store.roles)
      invariant forall r, p, s :: RoleGives(store.roles, r, p, s) <==>
        (RoleGives(was, r, p, s)
         || (r in was && p == perm.code && Gives(perm.(defaultRoles := perm.defaultRoles[..i]), r, s)))
    {
      var dr := perm.defaultRoles[i];
      ghost var before := store.roles;
      Grant(store, TargetRole(dr), perm.code, TargetScope(dr, perm.ownScope));
      forall r, p, s ensures RoleGives(store.roles, r, p, s) <==>
        (RoleGives(was, r, p, s)
         || (r in was && p == perm.code && Gives(perm.(defaultRoles := perm.defaultRoles[..i + 1]), r, s)))
      {
        GivesNext(perm, i, r, s);
        assert RoleGives(before, r, p, s) <==>
          (RoleGives(was, r, p, s)
           || (r in was && p == perm.code && Gives(perm.(defaultRoles := perm.defaultRoles[..i]), r, s)));
      }
    }
    assert perm.(defaultRoles := perm.defaultRoles[..|perm.defaultRoles|]) == perm;
  }

  lemma GivesNext(perm: Permission, i: nat, r: RoleCode, s: Scope)
    requires i < |perm.defaultRoles|
    ensures var dr := perm.defaultRoles[i];
      Gives(perm.(defaultRoles := perm.defaultRoles[..i + 1]), r, s) <==>
      (Gives(perm.(defaultRoles := perm.defaultRoles[..i]), r, s)
       || (r == TargetRole(dr) && (s == All ==> TargetScope(dr, perm.ownScope) == All)))
  {
    var a, b := perm.defaultRoles[..i], perm.defaultRoles[..i + 1];
    if k :| 0 <= k < |a| && TargetRole(a[k]) == r && (s == All ==> TargetScope(a[k], perm.ownScope) == All) {
      assert b[k] == a[k];
    }
    assert b[i] == perm.defaultRoles[i];
    if k :| 0 <= k < |b| && TargetRole(b[k]) == r && (s == All ==> TargetScope(b[k], perm.ownScope) == All) {
      if k < i { assert a[k] == b[k]; }
    }
  }

  /** GrantOnInstall: row by row, the upserts join every role with what is declared for it. */
  method GrantOnInstall(store: DelegationStore.Store, perms: seq<Permission>)
    modifies store`roles
    ensures store.roles == Installed(old(store.roles), perms)
  {
    ghost var was := store.roles;
    for i := 0 to |perms|
      invariant SameShape(was, store.roles)
      invariant forall r, p, s :: RoleGives(store.roles, r, p, s) <==>
        RoleGives(was, r, p, s) || (r in was && Declares(perms[..i], r, p, s))
    {
      ghost var before := store.roles;
      GrantOne(store, perms[i]);
      forall r, p, s ensures RoleGives(store.roles, r, p, s) <==>
        RoleGives(was, r, p, s) || (r in was && Declares(perms[..i + 1], r, p, s))
      {
        assert perms[..i + 1] == perms[..i] + [perms[i]];
        DeclaresConcat(perms[..i], [perms[i]], r, p, s);
        DeclaresOne(perms[i], r, p, s);
        assert RoleGives(before, r, p, s) <==> RoleGives(was, r, p, s) || (r in was && Declares(perms[..i], r, p, s));
      }
    }
    assert perms[..|perms|] == perms;
    forall r, p, s ensures RoleGives(store.roles, r, p, s) <==> RoleGives(Installed(was, perms), r, p, s) {
      InstalledGives(was, perms, r, p, s);
    }
    SameRoleGrants(store.roles, Installed(was, perms));
  }

  lemma DeclaresOne(perm: Permission, r: RoleCode, p: Perm, s: Scope)
    ensures Declares([perm], r, p, s) <==> p == perm.code && Gives(perm, r, s)
  {
    assert [perm][0] == perm;
  }

  // ---- a new tenant -----------------------------------------------------------------------------------------

  function CorePermissions(): seq<Permission> {
    [Permission("core.members.manage", false, []),
     Permission("core.roles.manage", false, []),
     Permission("core.apps.manage", false, []),
     Permission("core.audit.read", false, ["manager"]),
     Permission("core.sso.manage", false, []),
     Permission("core.settings.manage", false, [])]
  }

  function Seeded(): Roles {
    map[][USER := Role(None, true, map[])]
         [MANAGER := Role(Some(USER), true, map[])]
         [ADMIN := Role(Some(MANAGER), true, map[])]
  }

  const USER := "user"
  const MANAGER := "manager"
  const ADMIN := "admin"

  /** The roles of a new tenant: three active ones without grants, admin above manager above user. */
  lemma SeededExact()
    ensures Seeded().Keys == {"admin", "manager", "user"}
    ensures Seeded()["admin"] == Role(Some("manager"), true, map[])
    ensures Seeded()["manager"] == Role(Some("user"), true, map[])
    ensures Seeded()["user"] == Role(None, true, map[])
  {
  }

  /** The platform's own permissions, none of which supports own scope; reading the audit log is the manager's too. */
  lemma CoreExact(p: Permission)
    ensures p in CorePermissions() <==>
      && !p.ownScope
      && (p.code == "core.audit.read" ==> p.defaultRoles == ["manager"])
      && (p.code != "core.audit.read" ==> p.defaultRoles == [])
      && (p.code == "core.members.manage" || p.code == "core.roles.manage" || p.code == "core.apps.manage"
          || p.code == "core.audit.read" || p.code == "core.sso.manage" || p.code == "core.settings.manage")
  {
    var c := CorePermissions();
    if p in c { var i :| 0 <= i < |c| && c[i] == p; }
    if p.code == "core.members.manage" { assert c[0].code == p.code; }
    assert forall i :: 0 <= i < |c| ==> c[i] in c;
  }

  function NewTenant(owner: User): Tenant {
    Tenant(Installed(Seeded(), CorePermissions()), map[owner := {ADMIN}])
  }

  /** SeedTenantRoles. */
  method SeedTenantRoles(store: DelegationStore.Store)
    requires store.roles == map[]
    modifies store`roles
    ensures store.roles == Seeded()
  {
    var rows := [(USER, None), (MANAGER, Some(USER)), (ADMIN, Some(MANAGER))];
    for i := 0 to 3
      invariant i >= 0
      invariant store.roles == if i == 0 then map[] else if i == 1 then map[][USER := Role(None, true, map[])]
                               else if i == 2
                               then map[][USER := Role(None, true, map[])][MANAGER := Role(Some(USER), true, map[])]
                               else Seeded()
    {
      store.roles := store.roles[rows[i].0 := Role(rows[i].1, true, map[])];
    }
  }

  /** createTenantTx. */
  method CreateTenant(owner: User) returns (store: DelegationStore.Store)
    ensures fresh(store) && store.View() == NewTenant(owner)
  {
    store := new DelegationStore.Store(map[], map[]);
    store.members := store.members[owner := {}];
    SeedTenantRoles(store);
    store.members := store.members[owner := {ADMIN}];
    GrantOnInstall(store, CorePermissions());
  }

  lemma SeededForest()
    ensures Closed(Up(Seeded())) && Acyclic(Up(Seeded()))
  {
    var none: map<RoleCode, Option<RoleCode>> := map[];
    var one := none[USER := None];
    var two := one[MANAGER := Some(USER)];
    AddLeaf(none, USER, None);
    AddLeaf(one, MANAGER, Some(USER));
    AddLeaf(two, ADMIN, Some(MANAGER));
    assert Up(Seeded()) == two[ADMIN := Some(MANAGER)];
  }

  lemma InstalledKeepsUp(roles: Roles, perms: seq<Permission>)
    ensures Up(Installed(roles, perms)) == Up(roles)
  {
  }

  lemma NewTenantSafe(owner: User)
    ensures AdminSafe(NewTenant(owner))
  {
    SeededForest();
    InstalledKeepsUp(Seeded(), CorePermissions());
    assert owner in NewTenant(owner).members;
  }

  // ---- runs of requests and installs ------------------------------------------------------------------------

  /** A request of a member, or the default grants of an install or of a backfill. */
  datatype Event = Request(call: Call) | Install(perms: seq<Permission>)

  ghost function Step(t: Tenant, e: Event): Tenant {
    match e
    case Request(call) => ApplyWith(t, call.mine, call.op).1
    case Install(perms) => t.(roles := Installed(t.roles, perms))
  }

  ghost function Live(t: Tenant, events: seq<Event>): Tenant
    decreases |events|
  {
    if events == [] then t else Live(Step(t, events[0]), events[1..])
  }

  lemma StepSafe(t: Tenant, e: Event)
    requires AdminSafe(t)
    ensures AdminSafe(Step(t, e))
    ensures Leq(t.roles["admin"].grants, Step(t, e).roles["admin"].grants)
  {
    match e {
      case Request(call) => ApplyAdminSafe(t, call.mine, call.op);
      case Install(perms) =>
        var t' := Step(t, e);
        assert Up(t'.roles) == Up(t.roles);
        forall p, s | Covers(t.roles["admin"].grants, p, s) ensures Covers(t'.roles["admin"].grants, p, s) {
          InstalledGives(t.roles, perms, "admin", p, s);
          assert RoleGives(t.roles, "admin", p, s);
        }
    }
  }

  /** In every run of requests and installs an admin stays and the admin role never loses a grant. */
  lemma {:induction false} LiveSafe(t: Tenant, events: seq<Event>)
    requires AdminSafe(t)
    ensures AdminSafe(Live(t, events))
    ensures Leq(t.roles["admin"].grants, Live(t, events).roles["admin"].grants)
    decreases |events|
  {
    if events != [] {
      StepSafe(t, events[0]);
      LiveSafe(Step(t, events[0]), events[1..]);
    }
  }

  /** Once a module is installed, in every later state some member holds each of its permissions for all rows. */
  lemma InstalledStaysHeld(t: Tenant, perms: seq<Permission>, later: seq<Event>, i: nat) returns (u: User)
    requires AdminSafe(t) && i < |perms|
    ensures var t' := Live(Step(t, Install(perms)), later);
      u in t'.members && "admin" in t'.members[u] && Covers(Effective(t', u), perms[i].code, All)
  {
    var t1 := Step(t, Install(perms));
    InstalledGives(t.roles, perms, "admin", perms[i].code, All);
    assert Gives(perms[i], "admin", All);
    StepSafe(t, Install(perms));
    LiveSafe(t1, later);
    var t' := Live(t1, later);
    assert RoleGives(t1.roles, "admin", perms[i].code, All);
    u :| u in t'.members && "admin" in t'.members[u];
    AdminHolds(t', u, perms[i].code);
  }

  /** From creation on, in every run, some member holds every core permission for all rows. */
  lemma TenantNeverLocked(owner: User, events: seq<Event>, i: nat) returns (u: User)
    requires i < |CorePermissions()|
    ensures var t' := Live(NewTenant(owner), events);
      AdminSafe(t') && u in t'.members && Covers(Effective(t', u), CorePermissions()[i].code, All)
  {
    NewTenantSafe(owner);
    LiveSafe(NewTenant(owner), events);
    InstallUnordered(Seeded(), CorePermissions(), CorePermissions());
    assert Step(NewTenant(owner), Install(CorePermissions())) == NewTenant(owner);
    u := InstalledStaysHeld(NewTenant(owner), CorePermissions(), events, i);
  }
}
