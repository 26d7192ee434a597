/** What each role and member endpoint answers and writes, spelled out over the tables and the texts of the request,
    apart from the definitions the endpoints use. */
module DelegationExact {
  import opened Common
  import opened Grants
  import opened Rbac
  import opened Delegation

  /** Everything within five hops of the role, inactive roles included, gives only what mine covers. */
  ghost predicate ChainWithin(roles: Roles, c: RoleCode, mine: Grants) {
    forall r, p, s :: InChain(roles, c, 5, false, r) && RoleGives(roles, r, p, s) ==> Covers(mine, p, s)
  }

  /** A lower-case letter, then 1 to 63 lower-case letters, digits and underscores. */
  predicate CodeText(code: string) {
    2 <= |code| <= 64 && 'a' <= code[0] <= 'z'
    && forall i :: 0 <= i < |code| ==> 'a' <= code[i] <= 'z' || '0' <= code[i] <= '9' || code[i] == '_'
  }

  /** The text "own" asks for the own scope, any other text for all. */
  function ScopeText(text: string): Scope {
    if text == "own" then Own else All
  }

  /** What is taken from the role, wholly or by narrowing, the caller holds. */
  ghost predicate TakesHeld(existing: Grants, wanted: map<Perm, string>, mine: Grants) {
    forall p :: p in existing && (p !in wanted || (existing[p] == All && wanted[p] == "own"))
      ==> Covers(mine, p, existing[p])
  }

  /** What is given to the role, newly or by widening, the caller holds. */
  ghost predicate GivesHeld(existing: Grants, wanted: map<Perm, string>, mine: Grants) {
    forall p :: p in wanted && (p !in existing || (existing[p] == Own && wanted[p] != "own"))
      ==> Covers(mine, p, ScopeText(wanted[p]))
  }

  /** Every code is known, and own is asked for only where it is supported. */
  ghost predicate Known(wanted: map<Perm, string>, catalogue: Catalogue) {
    forall p :: p in wanted ==> p in catalogue && (wanted[p] == "own" ==> catalogue[p])
  }

  lemma AllowedExact(existing: Grants, wanted: map<Perm, string>, mine: Grants, catalogue: Catalogue)
    ensures GrantsAllowed(existing, wanted, mine, catalogue) <==>
      TakesHeld(existing, wanted, mine) && GivesHeld(existing, wanted, mine) && Known(wanted, catalogue)
  {
    forall p | p in wanted ensures Normal(wanted[p]) == ScopeText(wanted[p]) {}
    if GrantsAllowed(existing, wanted, mine, catalogue) {
      forall p | p in existing && (p !in wanted || (existing[p] == All && wanted[p] == "own"))
        ensures Covers(mine, p, existing[p])
      {
        assert MayTake(existing, wanted, mine, p);
      }
      forall p | p in wanted
        ensures p in catalogue && (wanted[p] == "own" ==> catalogue[p])
        ensures p !in existing || (existing[p] == Own && wanted[p] != "own") ==> Covers(mine, p, ScopeText(wanted[p]))
      {
        assert MayGive(existing, wanted, mine, catalogue, p);
      }
    }
  }

  /** Giving grants to a role. A request that is done leaves the role with exactly the permissions asked for, each with
      the scope asked for, and everything else as it was. */
  lemma SetGrantsExact(t: Tenant, mine: Grants, code: RoleCode, wanted: map<Perm, string>, catalogue: Catalogue)
    ensures var (outcome, t') := DoSetGrants(t, mine, code, wanted, catalogue);
      && (outcome == Done <==>
            |wanted| <= 256 && code in t.roles && code != "admin" && TakesHeld(t.roles[code].grants, wanted, mine)
            && GivesHeld(t.roles[code].grants, wanted, mine) && Known(wanted, catalogue))
      && (outcome == NotFound <==> |wanted| <= 256 && code !in t.roles)
      && (outcome == Done || outcome == NotFound || outcome == BadRequest)
      && (outcome != Done ==> t' == t)
      && t'.members == t.members && t'.roles.Keys == t.roles.Keys
      && (forall r :: r in t.roles && r != code ==> t'.roles[r] == t.roles[r])
  {
    if code in t.roles { AllowedExact(t.roles[code].grants, wanted, mine, catalogue); }
  }

  lemma GrantsWritten(t: Tenant, mine: Grants, code: RoleCode, wanted: map<Perm, string>, catalogue: Catalogue, p: Perm)
    requires DoSetGrants(t, mine, code, wanted, catalogue).0 == Done
    ensures var role, role' := t.roles[code], DoSetGrants(t, mine, code, wanted, catalogue).1.roles[code];
      && role'.implies == role.implies && role'.active == role.active
      && (p in role'.grants <==> p in wanted)
      && (p in wanted ==> (role'.grants[p] == Own <==> wanted[p] == "own"))
      && (p in wanted && wanted[p] == "own" ==> p in catalogue && catalogue[p])
  {
    AllowedExact(t.roles[code].grants, wanted, mine, catalogue);
  }

  /** Creating a role. What is written is an active role without grants that implies what was asked. */
  lemma CreateExact(t: Tenant, mine: Grants, code: RoleCode, fieldsOk: bool, implies: RoleCode)
    ensures var (outcome, t') := DoCreate(t, mine, code, fieldsOk, implies);
      var held := CodeText(code) && fieldsOk && (implies != "" ==> ChainWithin(t.roles, implies, mine));
      && (outcome == Done <==> held && code !in t.roles && (implies != "" ==> implies != code && implies in t.roles))
      && (outcome == ServerError <==> held && implies == code)
      && (outcome == Conflict <==> held && implies != code && code in t.roles)
      && (outcome == Done || outcome == ServerError || outcome == Conflict || outcome == BadRequest)
      && (outcome != Done ==> t' == t)
      && (outcome == Done ==>
            && t'.members == t.members && t'.roles.Keys == t.roles.Keys + {code}
            && (forall r :: r in t.roles ==> t'.roles[r] == t.roles[r])
            && t'.roles[code].active && t'.roles[code].grants == map[]
            && t'.roles[code].implies == if implies == "" then None else Some(implies))
  {
  }

  /** The caller's grants bound every role in the list, and each is a role. */
  ghost predicate AllGivable(t: Tenant, codes: seq<RoleCode>, mine: Grants) {
    |codes| <= 32 && forall c :: c in codes ==> c in t.roles && ChainWithin(t.roles, c, mine)
  }

  /** Adding a member. Whoever asks for no roles gets user. */
  lemma AddExact(t: Tenant, mine: Grants, intake: Intake, asked: seq<RoleCode>)
    ensures var (outcome, t') := DoAdd(t, mine, intake, asked);
      var codes := if asked == [] then ["user"] else asked;
      && (intake == BadAddress || intake == BadAccount ==> outcome == BadRequest)
      && (intake == NotCreated ==> outcome == Conflict)
      && (intake.Known? || intake.Created? ==>
            && (outcome == Conflict <==> intake.user in t.members)
            && (outcome == Done <==> intake.user !in t.members && AllGivable(t, codes, mine))
            && (outcome == Conflict || outcome == Done || outcome == BadRequest))
      && (outcome != Done ==> t' == t)
      && (outcome == Done ==>
            && t'.roles == t.roles && t'.members.Keys == t.members.Keys + {intake.user}
            && (forall u :: u in t.members ==> t'.members[u] == t.members[u])
            && (forall c :: c in t'.members[intake.user] <==> c in codes))
  {
  }

  /** Some member other than u has the admin role. */
  ghost predicate OtherAdmin(t: Tenant, u: User) {
    exists v :: v in t.members && v != u && "admin" in t.members[v]
  }

  /** Replacing a member's roles: what is given and what is taken is within the caller's grants, and an admin stays. */
  lemma SetRolesExact(t: Tenant, mine: Grants, target: User, codes: seq<RoleCode>)
    ensures var (outcome, t') := DoSetRoles(t, mine, target, codes);
      && (outcome == NotFound <==> target !in t.members)
      && (target in t.members ==>
            var held := AllGivable(t, codes, mine)
                        && forall c :: c in t.members[target] && c !in codes ==> ChainWithin(t.roles, c, mine);
            && (outcome == Done <==> held && ("admin" in codes || OtherAdmin(t, target)))
            && (outcome == Conflict <==> held && "admin" !in codes && !OtherAdmin(t, target))
            && (outcome == Done || outcome == Conflict || outcome == BadRequest))
      && (outcome != Done ==> t' == t)
      && (outcome == Done ==>
            && t'.roles == t.roles && t'.members.Keys == t.members.Keys
            && (forall u :: u in t.members && u != target ==> t'.members[u] == t.members[u])
            && (forall c :: c in t'.members[target] <==> c in codes))
  {
    if target in t.members {
      var members := t.members[target := Codes(codes)];
      if HasAdmin(members) {
        var u :| u in members && "admin" in members[u];
        if u == target { assert "admin" in codes; } else { assert OtherAdmin(t, target); }
      }
      if "admin" in codes { assert "admin" in members[target]; }
      if OtherAdmin(t, target) {
        var v :| v in t.members && v != target && "admin" in t.members[v];
        assert "admin" in members[v];
      }
    }
  }

  /** Removing a member: everything it has is within the caller's grants, it is not the caller, and an admin stays. */
  lemma RemoveExact(t: Tenant, mine: Grants, actor: User, target: User)
    ensures var (outcome, t') := DoRemove(t, mine, actor, target);
      var held := target in t.members ==> forall c :: c in t.members[target] ==> ChainWithin(t.roles, c, mine);
      && (outcome == BadRequest <==> !held)
      && (outcome == NotFound <==> held && (target !in t.members || target == actor))
      && (outcome == Done <==> held && target in t.members && target != actor && OtherAdmin(t, target))
      && (outcome == Done || outcome == NotFound || outcome == Conflict || outcome == BadRequest)
      && (outcome != Done ==> t' == t)
      && (outcome == Done ==>
            && t'.roles == t.roles && t'.members.Keys == t.members.Keys - {target}
            && (forall u :: u in t'.members ==> t'.members[u] == t.members[u]))
  {
    var left := Delegation.Without(t.members, target);
    forall c ensures RoleWithin(t.roles, c, mine) <==> ChainWithin(t.roles, c, mine) {}
    if OtherAdmin(t, target) {
      var v :| v in t.members && v != target && "admin" in t.members[v];
      assert v in left && "admin" in left[v];
    }
    if HasAdmin(left) {
      var u :| u in left && "admin" in left[u];
      assert u in t.members && u != target && "admin" in t.members[u];
    }
  }
}
