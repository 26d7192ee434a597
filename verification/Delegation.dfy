/** The role and member endpoints of one tenant, each guarded by the grants of whoever calls it. */
module Delegation {
  import opened Common
  import opened Hops
  import opened Names
  import opened Grants
  import opened Rbac

  datatype Outcome = Done | BadRequest | NotFound | Conflict | ServerError

  const MAX_ASSIGNED := 32
  const MAX_GRANTS := 256

  /** What adding a member comes to before its transaction: the address or the name is refused; the address has an
      account; or it has none, and the fields of a new account are refused, creating it fails, or it is created. */
  datatype Intake = BadAddress | Known(user: User) | BadAccount | NotCreated | Created(user: User)

  function Refusal(intake: Intake): Option<Outcome> {
    match intake
    case BadAddress => Some(BadRequest)
    case BadAccount => Some(BadRequest)
    case NotCreated => Some(Conflict)
    case _ => None
  }

  datatype Op =
    | CreateRole(actor: User, code: RoleCode, fieldsOk: bool, implies: RoleCode)
    | SetGrants(actor: User, code: RoleCode, wanted: map<Perm, string>, catalogue: Catalogue)
    | AddMember(actor: User, intake: Intake, codes: seq<RoleCode>)
    | SetMemberRoles(actor: User, target: User, codes: seq<RoleCode>)
    | RemoveMember(actor: User, target: User)

  /** roleCodeRe. */
  predicate RoleCodeShape(code: RoleCode) {
    Segment(code) && 2 <= |code| <= 64
  }

  function Normal(scope: string): Scope {
    if scope == "own" then Own else All
  }

  /** Keeping or narrowing what the role has needs no grant of one's own; taking away does. */
  predicate MayTake(existing: Grants, wanted: map<Perm, string>, mine: Grants, p: Perm)
    requires p in existing
  {
    (p in wanted && !(existing[p] == All && Normal(wanted[p]) == Own)) || Covers(mine, p, existing[p])
  }

  /** Giving more than the role has needs the grant itself, a known code, and own scope only where declared. */
  predicate MayGive(existing: Grants, wanted: map<Perm, string>, mine: Grants, catalogue: Catalogue, p: Perm)
    requires p in wanted
  {
    var sc := Normal(wanted[p]);
    && ((p in existing && (existing[p] == All || existing[p] == sc)) || Covers(mine, p, sc))
    && p in catalogue && (sc == Own ==> catalogue[p])
  }

  ghost predicate GrantsAllowed(existing: Grants, wanted: map<Perm, string>, mine: Grants, catalogue: Catalogue) {
    && (forall p :: p in existing ==> MayTake(existing, wanted, mine, p))
    && (forall p :: p in wanted ==> MayGive(existing, wanted, mine, catalogue, p))
  }

  function Wanted(wanted: map<Perm, string>): Grants {
    map p | p in wanted :: Normal(wanted[p])
  }

  /** assignRoles succeeds: few enough codes, every role given or taken away is within the caller's grants, and every
      code given names a role. */
  ghost predicate Assignable(t: Tenant, existing: set<RoleCode>, codes: seq<RoleCode>, mine: Grants) {
    && |codes| <= MAX_ASSIGNED
    && (forall c :: c in existing && c !in codes ==> RoleWithin(t.roles, c, mine))
    && (forall c :: c in codes ==> RoleWithin(t.roles, c, mine) && c in t.roles)
  }

  function Codes(codes: seq<RoleCode>): set<RoleCode> {
    set c | c in codes
  }

  /** tenantHasAdmin. */
  ghost predicate HasAdmin(members: map<User, set<RoleCode>>) {
    exists u :: u in members && "admin" in members[u]
  }

  ghost function DoCreate(t: Tenant, mine: Grants, code: RoleCode, fieldsOk: bool, implies: RoleCode)
    : (Outcome, Tenant)
  {
    if !RoleCodeShape(code) || !fieldsOk then (BadRequest, t)
    else if implies != "" && !RoleWithin(t.roles, implies, mine) then (BadRequest, t)
    else if implies == code then (ServerError, t)
    else if code in t.roles then (Conflict, t)
    else if implies != "" && implies !in t.roles then (BadRequest, t)
    else (Done, t.(roles := t.roles[code := Role(if implies == "" then None else Some(implies), true, map[])]))
  }

  ghost function DoSetGrants(t: Tenant, mine: Grants, code: RoleCode, wanted: map<Perm, string>, catalogue: Catalogue)
    : (Outcome, Tenant)
  {
    if |wanted| > MAX_GRANTS then (BadRequest, t)
    else if code !in t.roles then (NotFound, t)
    else if code == "admin" || !GrantsAllowed(t.roles[code].grants, wanted, mine, catalogue) then (BadRequest, t)
    else (Done, t.(roles := t.roles[code := t.roles[code].(grants := Wanted(wanted))]))
  }

  ghost function DoAdd(t: Tenant, mine: Grants, intake: Intake, asked: seq<RoleCode>): (r: (Outcome, Tenant))
    ensures r.0 == Done ==> Refusal(intake).None? && intake.user !in t.members
  {
    var codes := if asked == [] then ["user"] else asked;
    if Refusal(intake).Some? then (Refusal(intake).value, t)
    else if intake.user in t.members then (Conflict, t)
    else if !Assignable(t, {}, codes, mine) then (BadRequest, t)
    else (Done, t.(members := t.members[intake.user := Codes(codes)]))
  }

  ghost function DoSetRoles(t: Tenant, mine: Grants, target: User, codes: seq<RoleCode>): (Outcome, Tenant) {
    if target !in t.members then (NotFound, t)
    else if !Assignable(t, t.members[target], codes, mine) then (BadRequest, t)
    else
      var members := t.members[target := Codes(codes)];
      if !HasAdmin(members) then (Conflict, t) else (Done, t.(members := members))
  }

  function RolesOf(t: Tenant, u: User): set<RoleCode> {
    if u in t.members then t.members[u] else {}
  }

  function Without(members: map<User, set<RoleCode>>, u: User): map<User, set<RoleCode>> {
    map v | v in members && v != u :: members[v]
  }

  ghost function DoRemove(t: Tenant, mine: Grants, actor: User, target: User): (Outcome, Tenant) {
    if exists c :: c in RolesOf(t, target) && !RoleWithin(t.roles, c, mine) then (BadRequest, t)
    else if target !in t.members || target == actor then (NotFound, t)
    else if !HasAdmin(Without(t.members, target)) then (Conflict, t)
    else (Done, t.(members := Without(t.members, target)))
  }

  /** One request in one transaction: its outcome and the tenant after it, given what its caller was found to hold. */
  ghost function ApplyWith(t: Tenant, mine: Grants, op: Op): (Outcome, Tenant) {
    match op
    case CreateRole(actor, code, fieldsOk, implies) => DoCreate(t, mine, code, fieldsOk, implies)
    case SetGrants(actor, code, wanted, catalogue) => DoSetGrants(t, mine, code, wanted, catalogue)
    case AddMember(actor, intake, codes) => DoAdd(t, mine, intake, codes)
    case SetMemberRoles(actor, target, codes) => DoSetRoles(t, mine, target, codes)
    case RemoveMember(actor, target) => DoRemove(t, mine, actor, target)
  }

  /** A request with what its caller was found to hold, which a cache may have kept from an earlier state. */
  datatype Call = Call(op: Op, mine: Grants)

  ghost function Run(t: Tenant, calls: seq<Call>): Tenant
    decreases |calls|
  {
    if calls == [] then t else Run(ApplyWith(t, calls[0].mine, calls[0].op).1, calls[1..])
  }

  // ---- chains under changes ------------------------------------------------------------------------------

  lemma {:induction false} ChainFiltered(roles: Roles, code: RoleCode, hops: nat, r: RoleCode)
    requires InChain(roles, code, hops, true, r)
    ensures InChain(roles, code, hops, false, r)
    decreases hops
  {
    if r != code {
      ChainFiltered(roles, roles[code].implies.value, hops - 1, r);
    }
  }

  lemma {:induction false} ChainGrows(roles: Roles, code: RoleCode, hops: nat, activeOnly: bool, r: RoleCode)
    requires InChain(roles, code, hops, activeOnly, r)
    ensures InChain(roles, code, hops + 1, activeOnly, r)
    decreases hops
  {
    if r != code {
      ChainGrows(roles, roles[code].implies.value, hops - 1, activeOnly, r);
    }
  }

  ghost predicate SameShape(roles: Roles, roles': Roles) {
    && (forall r :: r in roles <==> r in roles')
    && (forall r :: r in roles ==> roles'[r].implies == roles[r].implies && roles'[r].active == roles[r].active)
  }

  lemma {:induction false} ChainSameShape(roles: Roles, roles': Roles, code: RoleCode, hops: nat, activeOnly: bool,
                                          r: RoleCode)
    requires SameShape(roles, roles')
    ensures InChain(roles', code, hops, activeOnly, r) <==> InChain(roles, code, hops, activeOnly, r)
    decreases hops
  {
    if code in roles && hops > 0 && roles[code].implies.Some? {
      ChainSameShape(roles, roles', roles[code].implies.value, hops - 1, activeOnly, r);
    }
  }

  function Up(roles: Roles): map<RoleCode, Option<RoleCode>> {
    map r | r in roles :: roles[r].implies
  }

  lemma {:induction false} ChainOldRoles(roles: Roles, c: RoleCode, role: Role, code: RoleCode, hops: nat,
                                         activeOnly: bool, r: RoleCode)
    requires Closed(Up(roles)) && c !in roles && code in roles
    ensures InChain(roles[c := role], code, hops, activeOnly, r) <==> InChain(roles, code, hops, activeOnly, r)
    decreases hops
  {
    if hops > 0 && roles[code].implies.Some? {
      assert code in Up(roles);
      ChainOldRoles(roles, c, role, roles[code].implies.value, hops - 1, activeOnly, r);
    }
  }

  /** What roleWithinGrants checks bounds what assigning the role contributes. */
  lemma WithinBounds(roles: Roles, c: RoleCode, mine: Grants, r: RoleCode, p: Perm, s: Scope)
    requires RoleWithin(roles, c, mine) && InChain(roles, c, MAX_HOPS, true, r) && RoleGives(roles, r, p, s)
    ensures Covers(mine, p, s)
  {
    ChainFiltered(roles, c, MAX_HOPS, r);
  }

  /** It also bounds what a new, still empty role implying the checked role will contribute. */
  lemma ImplyingBounds(roles: Roles, c: RoleCode, implied: RoleCode, mine: Grants, r: RoleCode, p: Perm, s: Scope)
    requires Closed(Up(roles)) && c !in roles && implied in roles && RoleWithin(roles, implied, mine)
    requires InChain(roles[c := Role(Some(implied), true, map[])], c, MAX_HOPS, true, r)
    requires RoleGives(roles[c := Role(Some(implied), true, map[])], r, p, s)
    ensures Covers(mine, p, s)
  {
    ChainOldRoles(roles, c, Role(Some(implied), true, map[]), implied, MAX_HOPS - 1, true, r);
    if r != c { ChainGrows(roles, implied, MAX_HOPS - 1, true, r); }
    WithinBounds(roles, implied, mine, r, p, s);
  }

  // ---- who gains what -------------------------------------------------------------------------------------

  ghost predicate WellFormed(t: Tenant) {
    && Closed(Up(t.roles)) && Acyclic(Up(t.roles))
    && (forall u, c :: u in t.members && c in t.members[u] ==> c in t.roles)
  }

  /** A member whose roles were all checked against mine holds no more than mine. */
  lemma AssignedLeq(t: Tenant, u: User, mine: Grants)
    requires u in t.members && forall c :: c in t.members[u] ==> RoleWithin(t.roles, c, mine)
    ensures Leq(Effective(t, u), mine)
  {
    forall p, s | Covers(Effective(t, u), p, s) ensures Covers(mine, p, s) {
      EffectiveCovers(t, u, p, s);
      var r :| Inherits(t, u, r, p, s);
      var d :| d in t.members[u] && InChain(t.roles, d, MAX_HOPS, true, r);
      WithinBounds(t.roles, d, mine, r, p, s);
    }
  }

  /** Effective grants depend on the member's own roles only. */
  lemma OthersKeep(t: Tenant, members: map<User, set<RoleCode>>, u: User)
    requires (u in members <==> u in t.members) && (u in members ==> members[u] == t.members[u])
    ensures Effective(t.(members := members), u) == Effective(t, u)
  {
    assert UserRoles(t.(members := members), u) == UserRoles(t, u);
  }

  /** A new role changes nobody's grants. */
  lemma CreateKeeps(t: Tenant, mine: Grants, code: RoleCode, fieldsOk: bool, implies: RoleCode, u: User)
    requires WellFormed(t)
    ensures Effective(DoCreate(t, mine, code, fieldsOk, implies).1, u) == Effective(t, u)
  {
    var t' := DoCreate(t, mine, code, fieldsOk, implies).1;
    if t' != t && u in t.members {
      forall r ensures Reaches(t', u, r) <==> Reaches(t, u, r) {
        forall d | d in t.members[u]
          ensures InChain(t'.roles, d, MAX_HOPS, true, r) <==> InChain(t.roles, d, MAX_HOPS, true, r)
        {
          ChainOldRoles(t.roles, code, t'.roles[code], d, MAX_HOPS, true, r);
        }
      }
      forall r | Reaches(t, u, r) ensures r in t.roles {
        var d :| d in t.members[u] && InChain(t.roles, d, MAX_HOPS, true, r);
        ChainInside(t.roles, d, MAX_HOPS, true, r);
      }
      assert UserRoles(t', u) == UserRoles(t, u);
      SameRoles(t.roles, t'.roles, UserRoles(t, u));
    }
  }

  lemma {:induction false} ChainInside(roles: Roles, code: RoleCode, hops: nat, activeOnly: bool, r: RoleCode)
    requires InChain(roles, code, hops, activeOnly, r)
    ensures r in roles
    decreases hops
  {
    if r != code {
      ChainInside(roles, roles[code].implies.value, hops - 1, activeOnly, r);
    }
  }

  lemma SameRoles(roles: Roles, roles': Roles, rs: set<RoleCode>)
    requires forall r :: r in rs ==> r in roles && r in roles' && roles'[r] == roles[r]
    ensures GrantsOf(roles', rs) == GrantsOf(roles, rs)
  {
    forall p, s ensures Covers(GrantsOf(roles', rs), p, s) <==> Covers(GrantsOf(roles, rs), p, s) {
      GrantsOfCovers(roles, rs, p, s);
      GrantsOfCovers(roles', rs, p, s);
      forall r | r in rs ensures RoleGives(roles', r, p, s) <==> RoleGives(roles, r, p, s) {}
    }
    Antisymmetry(GrantsOf(roles', rs), GrantsOf(roles, rs));
  }

  /** A successful SetGrants changes what any user holds only inside what the caller holds: nothing is
      gained and nothing is lost that the caller does not hold too. */
  lemma SetGrantsFrame(t: Tenant, mine: Grants, code: RoleCode, wanted: map<Perm, string>, catalogue: Catalogue,
                       u: User)
    ensures var t' := DoSetGrants(t, mine, code, wanted, catalogue).1;
      && Leq(Effective(t', u), Join(Effective(t, u), mine))
      && Leq(Effective(t, u), Join(Effective(t', u), mine))
  {
    var t' := DoSetGrants(t, mine, code, wanted, catalogue).1;
    if t' != t {
      forall p, s ensures Covers(Effective(t', u), p, s) ==> Covers(Join(Effective(t, u), mine), p, s) {
        if Covers(Effective(t', u), p, s) { RegrantFrame(t, t', mine, code, wanted, catalogue, u, p, s); }
        JoinCovers(Effective(t, u), mine, p, s);
      }
      forall p, s ensures Covers(Effective(t, u), p, s) ==> Covers(Join(Effective(t', u), mine), p, s) {
        if Covers(Effective(t, u), p, s) { RegrantFrame(t, t', mine, code, wanted, catalogue, u, p, s); }
        JoinCovers(Effective(t', u), mine, p, s);
      }
    } else {
      forall p, s ensures Covers(Effective(t, u), p, s) ==> Covers(Join(Effective(t, u), mine), p, s) {
        JoinCovers(Effective(t, u), mine, p, s);
      }
    }
  }

  lemma RegrantFrame(t: Tenant, t': Tenant, mine: Grants, code: RoleCode, wanted: map<Perm, string>,
                     catalogue: Catalogue, u: User, p: Perm, s: Scope)
    requires code in t.roles && GrantsAllowed(t.roles[code].grants, wanted, mine, catalogue)
    requires t' == t.(roles := t.roles[code := t.roles[code].(grants := Wanted(wanted))])
    ensures Covers(mine, p, s) || (Covers(Effective(t', u), p, s) <==> Covers(Effective(t, u), p, s))
  {
    if !Covers(mine, p, s) {
      forall r ensures RoleGives(t'.roles, r, p, s) <==> RoleGives(t.roles, r, p, s) {
        if RoleGives(t'.roles, r, p, s) { RegrantGains(t.roles, code, wanted, mine, catalogue, r, p, s); }
        if RoleGives(t.roles, r, p, s) { RegrantLoses(t.roles, code, wanted, mine, catalogue, r, p, s); }
      }
      SameGiving(t, t', u, p, s);
      SameGiving(t', t, u, p, s);
    }
  }

  lemma RegrantGains(roles: Roles, code: RoleCode, wanted: map<Perm, string>, mine: Grants, catalogue: Catalogue,
                     r: RoleCode, p: Perm, s: Scope)
    requires code in roles && GrantsAllowed(roles[code].grants, wanted, mine, catalogue)
    requires RoleGives(roles[code := roles[code].(grants := Wanted(wanted))], r, p, s)
    ensures RoleGives(roles, r, p, s) || Covers(mine, p, s)
  {
    if r == code { assert MayGive(roles[code].grants, wanted, mine, catalogue, p); }
  }

  lemma RegrantLoses(roles: Roles, code: RoleCode, wanted: map<Perm, string>, mine: Grants, catalogue: Catalogue,
                     r: RoleCode, p: Perm, s: Scope)
    requires code in roles && GrantsAllowed(roles[code].grants, wanted, mine, catalogue)
    requires RoleGives(roles, r, p, s)
    ensures RoleGives(roles[code := roles[code].(grants := Wanted(wanted))], r, p, s) || Covers(mine, p, s)
  {
    if r == code { assert MayTake(roles[code].grants, wanted, mine, p); }
  }

  lemma SameGiving(t: Tenant, t': Tenant, u: User, p: Perm, s: Scope)
    requires t'.members == t.members && SameShape(t.roles, t'.roles)
    requires forall r :: RoleGives(t.roles, r, p, s) ==> RoleGives(t'.roles, r, p, s)
    ensures Covers(Effective(t, u), p, s) ==> Covers(Effective(t', u), p, s)
  {
    EffectiveCovers(t, u, p, s);
    EffectiveCovers(t', u, p, s);
    if r :| Inherits(t, u, r, p, s) {
      var d :| d in t.members[u] && InChain(t.roles, d, MAX_HOPS, true, r);
      ChainSameShape(t.roles, t'.roles, d, MAX_HOPS, true, r);
      assert Inherits(t', u, r, p, s);
    }
  }

  /** A successful SetMemberRoles means the target held, and now holds, no more than the caller. */
  lemma SetRolesFrame(t: Tenant, mine: Grants, target: User, codes: seq<RoleCode>)
    requires DoSetRoles(t, mine, target, codes).0 == Done
    ensures Leq(Effective(t, target), mine)
    ensures Leq(Effective(DoSetRoles(t, mine, target, codes).1, target), mine)
  {
    AssignedLeq(t, target, mine);
    AssignedLeq(DoSetRoles(t, mine, target, codes).1, target, mine);
  }

  /** A new member holds no more than the caller, and everyone else holds what they held. */
  lemma AddFrame(t: Tenant, mine: Grants, intake: Intake, codes: seq<RoleCode>, u: User)
    requires DoAdd(t, mine, intake, codes).0 == Done
    ensures var t' := DoAdd(t, mine, intake, codes).1;
      if u == intake.user then Leq(Effective(t', u), mine) else Effective(t', u) == Effective(t, u)
  {
    var t' := DoAdd(t, mine, intake, codes).1;
    if u == intake.user { AssignedLeq(t', u, mine); } else { OthersKeep(t, t'.members, u); }
  }

  /** A removed member held no more than the caller, holds nothing afterwards, was not the caller, and everyone else
      holds what they held. */
  lemma RemoveFrame(t: Tenant, mine: Grants, actor: User, target: User, u: User)
    requires DoRemove(t, mine, actor, target).0 == Done
    ensures Leq(Effective(t, target), mine) && target != actor
    ensures var t' := DoRemove(t, mine, actor, target).1;
      if u == target then forall p, s :: !Covers(Effective(t', u), p, s) else Effective(t', u) == Effective(t, u)
  {
    var t' := DoRemove(t, mine, actor, target).1;
    AssignedLeq(t, target, mine);
    if u == target { NonMember(t', u); } else { OthersKeep(t, t'.members, u); }
  }

  // ---- confinement ------------------------------------------------------------------------------------------

  ghost predicate Bounded(t: Tenant, k: set<User>, b: Grants) {
    forall u :: u in k ==> Leq(Effective(t, u), b)
  }

  /** A state of the tenant and the coalition at that time. */
  datatype Moment = Moment(t: Tenant, k: set<User>)

  /** The moment after a call: whoever it added has joined the coalition. */
  ghost function Next(m: Moment, c: Call): Moment {
    var r := ApplyWith(m.t, c.mine, c.op);
    Moment(r.1, if c.op.AddMember? && r.0 == Done then m.k + {c.op.intake.user} else m.k)
  }

  /** The caller belonged to the coalition at some moment so far, and uses what it effectively held then. */
  ghost predicate Remembered(past: seq<Moment>, c: Call) {
    exists i :: 0 <= i < |past| && HeldAt(past[i], c)
  }

  ghost predicate HeldAt(m: Moment, c: Call) {
    c.op.actor in m.k && c.mine == Effective(m.t, c.op.actor)
  }

  /** Every call of the run is made by someone in the coalition, with grants of any moment so far. */
  ghost predicate ByCoalition(past: seq<Moment>, calls: seq<Call>)
    requires past != []
    decreases |calls|
  {
    calls == []
    || (Remembered(past, calls[0]) && ByCoalition(past + [Next(past[|past| - 1], calls[0])], calls[1..]))
  }

  ghost function Final(m: Moment, calls: seq<Call>): Moment
    decreases |calls|
  {
    if calls == [] then m else Final(Next(m, calls[0]), calls[1..])
  }

  lemma CreateWellFormed(t: Tenant, code: RoleCode, implies: Option<RoleCode>)
    requires WellFormed(t) && code !in t.roles && (implies.Some? ==> implies.value in t.roles)
    ensures WellFormed(t.(roles := t.roles[code := Role(implies, true, map[])]))
  {
    AddLeaf(Up(t.roles), code, implies);
    assert Up(t.roles[code := Role(implies, true, map[])]) == Up(t.roles)[code := implies];
  }

  lemma ApplyWellFormed(t: Tenant, mine: Grants, op: Op)
    requires WellFormed(t)
    ensures WellFormed(ApplyWith(t, mine, op).1)
  {
    var t' := ApplyWith(t, mine, op).1;
    if op.CreateRole? {
      if t' != t { CreateWellFormed(t, op.code, if op.implies == "" then None else Some(op.implies)); }
    } else {
      assert Up(t'.roles) == Up(t.roles);
    }
  }

  /** The least upper bound argument for one request. */
  lemma CallConfined(m: Moment, c: Call, b: Grants)
    requires WellFormed(m.t) && Bounded(m.t, m.k, b) && Leq(c.mine, b)
    ensures Bounded(Next(m, c).t, Next(m, c).k, b)
  {
    var t, mine, op := m.t, c.mine, c.op;
    var t' := Next(m, c).t;
    forall u | u in Next(m, c).k ensures Leq(Effective(t', u), b) {
      match op {
        case CreateRole(actor, code, fieldsOk, implies) => CreateKeeps(t, mine, code, fieldsOk, implies, u);
        case SetGrants(actor, code, wanted, catalogue) =>
          SetGrantsFrame(t, mine, code, wanted, catalogue, u);
          forall p, s | Covers(Effective(t', u), p, s) ensures Covers(b, p, s) {
            JoinCovers(Effective(t, u), mine, p, s);
          }
        case AddMember(actor, intake, codes) =>
          if t' != t {
            if u == intake.user { AssignedLeq(t', u, mine); } else { OthersKeep(t, t'.members, u); }
          }
        case SetMemberRoles(actor, target, codes) =>
          if t' != t {
            if u == target { AssignedLeq(t', u, mine); } else { OthersKeep(t, t'.members, u); }
          }
        case RemoveMember(actor, target) =>
          if t' != t {
            if u == target { NonMember(t', u); } else { OthersKeep(t, t'.members, u); }
          }
      }
    }
  }

  lemma NonMember(t: Tenant, u: User)
    requires u !in t.members
    ensures forall p, s :: !Covers(Effective(t, u), p, s)
  {
    forall p, s ensures !Covers(Effective(t, u), p, s) { EffectiveCovers(t, u, p, s); }
  }

  /** What the coalition holds together. */
  ghost function Joined(t: Tenant, k: set<User>): Grants {
    GrantsOf(t.roles, set u, r | u in k && r in UserRoles(t, u) :: r)
  }

  lemma JoinedCovers(t: Tenant, k: set<User>, p: Perm, s: Scope)
    ensures Covers(Joined(t, k), p, s) <==> exists u :: u in k && Covers(Effective(t, u), p, s)
  {
    var rs := set u, r | u in k && r in UserRoles(t, u) :: r;
    GrantsOfCovers(t.roles, rs, p, s);
    forall u ensures Covers(Effective(t, u), p, s) <==>
      exists r :: r in UserRoles(t, u) && RoleGives(t.roles, r, p, s)
    {
      GrantsOfCovers(t.roles, UserRoles(t, u), p, s);
    }
    if r :| r in rs && RoleGives(t.roles, r, p, s) {
      var u :| u in k && r in UserRoles(t, u);
      assert Covers(Effective(t, u), p, s);
    }
    if u :| u in k && Covers(Effective(t, u), p, s) {
      var r :| r in UserRoles(t, u) && RoleGives(t.roles, r, p, s);
      assert r in rs;
    }
  }

  ghost predicate AllBounded(past: seq<Moment>, b: Grants) {
    forall i :: 0 <= i < |past| ==> Bounded(past[i].t, past[i].k, b)
  }

  lemma {:induction false} RunConfined(past: seq<Moment>, calls: seq<Call>, b: Grants)
    requires past != [] && WellFormed(past[|past| - 1].t) && ByCoalition(past, calls) && AllBounded(past, b)
    ensures var last := Final(past[|past| - 1], calls);
      Bounded(last.t, last.k, b) && last.t == Run(past[|past| - 1].t, calls)
    decreases |calls|
  {
    var m := past[|past| - 1];
    if calls != [] {
      var i :| 0 <= i < |past| && HeldAt(past[i], calls[0]);
      assert Bounded(past[i].t, past[i].k, b) && Bounded(m.t, m.k, b);
      CallConfined(m, calls[0], b);
      ApplyWellFormed(m.t, calls[0].mine, calls[0].op);
      var more := past + [Next(m, calls[0])];
      RunConfined(more, calls[1..], b);
    }
  }

  /** Confinement: as long as only members of a coalition act, each with what it held at any moment since it joined, the
      coalition with everyone it ever added never holds, all together, more than it held together at the start. */
  lemma Confinement(t: Tenant, k: set<User>, calls: seq<Call>)
    requires WellFormed(t) && ByCoalition([Moment(t, k)], calls)
    ensures var last := Final(Moment(t, k), calls);
      last.t == Run(t, calls) && Leq(Joined(last.t, last.k), Joined(t, k))
  {
    var b := Joined(t, k);
    forall u | u in k ensures Leq(Effective(t, u), b) {
      forall p, s | Covers(Effective(t, u), p, s) ensures Covers(b, p, s) { JoinedCovers(t, k, p, s); }
    }
    RunConfined([Moment(t, k)], calls, b);
    var last := Final(Moment(t, k), calls);
    forall p, s | Covers(Joined(last.t, last.k), p, s) ensures Covers(b, p, s) {
      JoinedCovers(last.t, last.k, p, s);
    }
  }

  // ---- the admin role ---------------------------------------------------------------------------------------

  ghost predicate AdminSafe(t: Tenant) {
    WellFormed(t) && "admin" in t.roles && t.roles["admin"].active && HasAdmin(t.members)
  }

  /** Every request keeps an admin in the tenant, the role graph acyclic and the admin role as it is, whatever its
      caller was found to hold. */
  lemma ApplyAdminSafe(t: Tenant, mine: Grants, op: Op)
    requires AdminSafe(t)
    ensures AdminSafe(ApplyWith(t, mine, op).1) && ApplyWith(t, mine, op).1.roles["admin"] == t.roles["admin"]
  {
    ApplyWellFormed(t, mine, op);
    if op.AddMember? && ApplyWith(t, mine, op).0 == Done {
      var u :| u in t.members && "admin" in t.members[u];
      assert ApplyWith(t, mine, op).1.members[u] == t.members[u];
    }
  }

  /** In every run the tenant keeps a member with the admin role, and the admin role stays as it is. */
  lemma {:induction false} AdminForever(t: Tenant, calls: seq<Call>)
    requires AdminSafe(t)
    ensures AdminSafe(Run(t, calls)) && Run(t, calls).roles["admin"] == t.roles["admin"]
    decreases |calls|
  {
    if calls != [] {
      ApplyAdminSafe(t, calls[0].mine, calls[0].op);
      AdminForever(ApplyWith(t, calls[0].mine, calls[0].op).1, calls[1..]);
    }
  }

  lemma AdminHolds(t: Tenant, u: User, p: Perm)
    requires AdminSafe(t) && u in t.members && "admin" in t.members[u] && Covers(t.roles["admin"].grants, p, All)
    ensures Covers(Effective(t, u), p, All)
  {
    assert InChain(t.roles, "admin", MAX_HOPS, true, "admin");
    assert Inherits(t, u, "admin", p, All);
    EffectiveCovers(t, u, p, All);
  }
}
