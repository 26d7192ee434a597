/** Roles, inheritance and delegation inside one tenant. */
module Rbac {
  import opened Common
  import opened Hops
  import opened Grants

  type RoleCode = string
  type User = nat
  datatype Role = Role(implies: Option<RoleCode>, active: bool, grants: Grants)
  type Roles = map<RoleCode, Role>
  datatype Tenant = Tenant(roles: Roles, members: map<User, set<RoleCode>>)

  /** The permission catalogue: each known code and whether it supports own scope. */
  type Catalogue = map<Perm, bool>

  const MAX_HOPS := 5

  // ---- what a role and a member give -----------------------------------------------------------------

  /** The recursive query over implies, started at code, yields r within this many hops. */
  predicate InChain(roles: Roles, code: RoleCode, hops: nat, activeOnly: bool, r: RoleCode)
    decreases hops
  {
    code in roles && (activeOnly ==> roles[code].active)
    && (r == code
        || (hops > 0 && roles[code].implies.Some?
          && InChain(roles, roles[code].implies.value, hops - 1, activeOnly, r)))
  }

  predicate RoleGives(roles: Roles, r: RoleCode, p: Perm, s: Scope) {
    r in roles && Covers(roles[r].grants, p, s)
  }

  /** roleWithinGrants: everything the role's unfiltered chain gives is covered. */
  ghost predicate RoleWithin(roles: Roles, code: RoleCode, mine: Grants) {
    forall r, p, s :: InChain(roles, code, MAX_HOPS, false, r) && RoleGives(roles, r, p, s) ==> Covers(mine, p, s)
  }

  /** One of the roles assigned to the user reaches r. */
  predicate Reaches(t: Tenant, u: User, r: RoleCode) {
    u in t.members && exists d :: d in t.members[u] && InChain(t.roles, d, MAX_HOPS, true, r)
  }

  function UserRoles(t: Tenant, u: User): set<RoleCode> {
    set r | r in t.roles && Reaches(t, u, r)
  }

  function PermsOf(roles: Roles, rs: set<RoleCode>): set<Perm> {
    set r, p | r in rs && r in roles && p in roles[r].grants :: p
  }

  /** The grants of a set of roles together. */
  function GrantsOf(roles: Roles, rs: set<RoleCode>): Grants {
    map p | p in PermsOf(roles, rs) :: if exists r :: r in rs && RoleGives(roles, r, p, All) then All else Own
  }

  /** UserGrants on a fresh read. */
  function Effective(t: Tenant, u: User): Grants {
    GrantsOf(t.roles, UserRoles(t, u))
  }

  lemma GrantsOfCovers(roles: Roles, rs: set<RoleCode>, p: Perm, s: Scope)
    ensures Covers(GrantsOf(roles, rs), p, s) <==> exists r :: r in rs && RoleGives(roles, r, p, s)
  {
    if r :| r in rs && RoleGives(roles, r, p, s) {
      assert p in PermsOf(roles, rs);
    }
    if Covers(GrantsOf(roles, rs), p, s) {
      var r :| r in rs && r in roles && p in roles[r].grants;
      assert RoleGives(roles, r, p, Own);
    }
  }

  // ---- chains are walks of at most five hops --------------------------------------------------------

  function Active(roles: Roles, activeOnly: bool): map<RoleCode, Option<RoleCode>> {
    map r | r in roles && (activeOnly ==> roles[r].active) :: roles[r].implies
  }

  /** r is reached from code by n hops through roles that exist and, if asked, are active. */
  predicate Reached(roles: Roles, code: RoleCode, n: nat, r: RoleCode, activeOnly: bool) {
    r in Active(roles, activeOnly) && Hop(Active(roles, activeOnly), code, n) == Some(r)
  }

  lemma {:induction false} ChainExact(roles: Roles, code: RoleCode, hops: nat, activeOnly: bool, r: RoleCode)
    ensures InChain(roles, code, hops, activeOnly, r) <==>
      exists n: nat :: n <= hops && Reached(roles, code, n, r, activeOnly)
    decreases hops
  {
    var up := Active(roles, activeOnly);
    assert Hop(up, code, 0) == Some(code);
    if code in up {
      if hops > 0 && roles[code].implies.Some? {
        var next := roles[code].implies.value;
        ChainExact(roles, next, hops - 1, activeOnly, r);
        if n: nat :| n <= hops - 1 && Reached(roles, next, n, r, activeOnly) {
          assert Reached(roles, code, n + 1, r, activeOnly);
        }
        if n: nat :| n <= hops && Reached(roles, code, n, r, activeOnly) {
          if n > 0 { assert Reached(roles, next, n - 1, r, activeOnly); }
        }
      }
      if r == code { assert Reached(roles, code, 0, r, activeOnly); }
    }
  }

  /** One of the roles assigned to the user reaches r, and r gives this. */
  predicate Inherits(t: Tenant, u: User, r: RoleCode, p: Perm, s: Scope) {
    Reaches(t, u, r) && RoleGives(t.roles, r, p, s)
  }

  lemma EffectiveCovers(t: Tenant, u: User, p: Perm, s: Scope)
    ensures Covers(Effective(t, u), p, s) <==> exists r :: Inherits(t, u, r, p, s)
  {
    GrantsOfCovers(t.roles, UserRoles(t, u), p, s);
    forall r ensures r in UserRoles(t, u) && RoleGives(t.roles, r, p, s) <==> Inherits(t, u, r, p, s) {}
  }

  /** A member's effective grants are the join of the grants of all active roles reached in at most five
      hops over active roles from the roles assigned. */
  lemma EffectiveExact(t: Tenant, u: User, p: Perm, s: Scope)
    ensures Covers(Effective(t, u), p, s) <==>
      u in t.members && exists d, n: nat, r ::
        d in t.members[u] && n <= 5 && Reached(t.roles, d, n, r, true) && RoleGives(t.roles, r, p, s)
  {
    EffectiveCovers(t, u, p, s);
    if r :| Inherits(t, u, r, p, s) {
      var d :| d in t.members[u] && InChain(t.roles, d, MAX_HOPS, true, r);
      ChainExact(t.roles, d, MAX_HOPS, true, r);
    }
    if u in t.members {
      forall d, n: nat, r | d in t.members[u] && n <= MAX_HOPS && Reached(t.roles, d, n, r, true)
        && RoleGives(t.roles, r, p, s)
        ensures Inherits(t, u, r, p, s)
      {
        ChainExact(t.roles, d, MAX_HOPS, true, r);
      }
    }
  }
}
