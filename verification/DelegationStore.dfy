/** The tables of one tenant and the endpoints that write them, statement by statement. A failed request
    rolls its transaction back. Rows come in any order, and every endpoint has the outcome and the effect
    that Delegation.ApplyWith states, whatever that order is. */
module DelegationStore {
  import opened Common
  import opened Grants
  import opened Rbac
  import opened Delegation

  // ---- dedupe ------------------------------------------------------------------------------------------

  /** The codes in the order of their first occurrence. */
  function Firsts(codes: seq<RoleCode>): seq<RoleCode> {
    if codes == [] then []
    else
      var n := |codes| - 1;
      if codes[n] in codes[..n] then Firsts(codes[..n]) else Firsts(codes[..n]) + [codes[n]]
  }

  lemma {:induction false} FirstsExact(codes: seq<RoleCode>)
    ensures Distinct(Firsts(codes)) && |Firsts(codes)| <= |codes|
    ensures forall c :: c in Firsts(codes) <==> c in codes
  {
    if codes != [] {
      var n := |codes| - 1;
      FirstsExact(codes[..n]);
      assert codes == codes[..n] + [codes[n]];
    }
  }

  /** Of two codes kept, the one kept first has occurred before the other first did. */
  lemma {:induction false} FirstsOrder(codes: seq<RoleCode>, i: nat, j: nat) returns (k: nat)
    requires i < j < |Firsts(codes)|
    ensures k < |codes| && codes[k] == Firsts(codes)[i] && Firsts(codes)[j] !in codes[..k + 1]
  {
    var n := |codes| - 1;
    var front := codes[..n];
    FirstsExact(front);
    if j < |Firsts(front)| {
      k := FirstsOrder(front, i, j);
      assert codes[..k + 1] == front[..k + 1];
    } else {
      var c := Firsts(front)[i];
      assert c in front;
      k :| 0 <= k < |front| && front[k] == c;
      assert codes[..k + 1] == front[..k + 1];
    }
  }

  /** dedupe compacts its argument in place: what is left in front is each code once, in first-seen order. */
  method Dedupe(codes: array<RoleCode>) returns (n: nat)
    modifies codes
    ensures n <= codes.Length && codes[..n] == Firsts(old(codes[..]))
  {
    ghost var was := codes[..];
    var seen := {};
    n := 0;
    for i := 0 to codes.Length
      invariant n <= i && seen == Codes(was[..i])
      invariant codes[..n] == Firsts(was[..i])
      invariant codes[i..] == was[i..]
    {
      assert codes[i] == codes[i..][0] == was[i];
      assert was[..i + 1][..i] == was[..i];
      assert codes[i + 1..] == codes[i..][1..] == was[i + 1..];
      if codes[i] !in seen {
        seen := seen + {codes[i]};
        codes[n] := codes[i];
        n := n + 1;
        assert codes[..n] == codes[..n - 1] + [was[i]];
        assert codes[i + 1..] == was[i + 1..];
      }
    }
    assert was[..codes.Length] == was;
  }

  // ---- chains, level by level ------------------------------------------------------------------------------

  function Present(roles: Roles, cs: set<RoleCode>, activeOnly: bool): set<RoleCode> {
    set c | c in cs && c in roles && (activeOnly ==> roles[c].active)
  }

  function Implied(roles: Roles, cs: set<RoleCode>): set<RoleCode> {
    set c | c in cs && c in roles && roles[c].implies.Some? :: roles[c].implies.value
  }

  /** One of the roles reaches r. */
  predicate ChainOf(roles: Roles, cs: set<RoleCode>, hops: nat, activeOnly: bool, r: RoleCode) {
    exists c :: c in cs && InChain(roles, c, hops, activeOnly, r)
  }

  /** One round of the recursive query, role by role. */
  lemma ChainNext(roles: Roles, cs: set<RoleCode>, hops: nat, activeOnly: bool, r: RoleCode)
    requires cs == Present(roles, cs, activeOnly)
    ensures r in cs ==> ChainOf(roles, cs, hops, activeOnly, r)
    ensures hops == 0 ==> (ChainOf(roles, cs, hops, activeOnly, r) <==> r in cs)
    ensures hops > 0 ==> (ChainOf(roles, cs, hops, activeOnly, r) <==>
              r in cs || ChainOf(roles, Present(roles, Implied(roles, cs), activeOnly), hops - 1, activeOnly, r))
  {
    if r in cs {
      assert r in Present(roles, cs, activeOnly);
      assert InChain(roles, r, hops, activeOnly, r);
    }
    if hops > 0 {
      var next := Present(roles, Implied(roles, cs), activeOnly);
      if ChainOf(roles, cs, hops, activeOnly, r) && r !in cs {
        var c :| c in cs && InChain(roles, c, hops, activeOnly, r);
        var d := roles[c].implies.value;
        assert InChain(roles, d, hops - 1, activeOnly, r);
        assert d in Implied(roles, cs) && d in next;
      }
      if ChainOf(roles, next, hops - 1, activeOnly, r) {
        var d :| d in next && InChain(roles, d, hops - 1, activeOnly, r);
        var c :| c in cs && c in roles && roles[c].implies == Some(d);
        assert c in Present(roles, cs, activeOnly);
        assert InChain(roles, c, hops, activeOnly, r);
      }
    } else if ChainOf(roles, cs, hops, activeOnly, r) {
      var c :| c in cs && InChain(roles, c, hops, activeOnly, r);
    }
  }

  function Next(roles: Roles, level: set<RoleCode>, activeOnly: bool): set<RoleCode> {
    Present(roles, Implied(roles, level), activeOnly)
  }

  function Rounds(roles: Roles, level: set<RoleCode>, hops: nat, activeOnly: bool): set<RoleCode>
    decreases hops
  {
    level + if hops > 0 then Rounds(roles, Next(roles, level, activeOnly), hops - 1, activeOnly) else {}
  }

  /** The rounds reach what the chains of the single roles reach. */
  lemma {:induction false} RoundsExact(roles: Roles, level: set<RoleCode>, hops: nat, activeOnly: bool, r: RoleCode)
    requires level == Present(roles, level, activeOnly)
    ensures r in Rounds(roles, level, hops, activeOnly) <==> ChainOf(roles, level, hops, activeOnly, r)
    decreases hops
  {
    ChainNext(roles, level, hops, activeOnly, r);
    if hops > 0 { RoundsExact(roles, Next(roles, level, activeOnly), hops - 1, activeOnly, r); }
  }

  lemma StartRounds(roles: Roles, start: set<RoleCode>, hops: nat, activeOnly: bool, r: RoleCode)
    ensures r in Rounds(roles, Present(roles, start, activeOnly), hops, activeOnly) <==>
      ChainOf(roles, start, hops, activeOnly, r)
  {
    var level := Present(roles, start, activeOnly);
    RoundsExact(roles, level, hops, activeOnly, r);
    forall c | c in start && InChain(roles, c, hops, activeOnly, r) ensures c in level {}
  }

  /** The recursive query: rounds of a join on implies, starting from the given roles, to the given depth. */
  method ChainQuery(roles: Roles, start: set<RoleCode>, hops: nat, activeOnly: bool) returns (chain: set<RoleCode>)
    ensures forall r :: r in chain <==> ChainOf(roles, start, hops, activeOnly, r)
  {
    var level := Present(roles, start, activeOnly);
    forall r { StartRounds(roles, start, hops, activeOnly, r); }
    ghost var all := Rounds(roles, level, hops, activeOnly);
    chain := level;
    for depth := 0 to hops
      invariant level <= chain && chain + Rounds(roles, level, hops - depth, activeOnly) == all
    {
      level := Next(roles, level, activeOnly);
      chain := chain + level;
    }
  }

  /** The permission rows of these roles, in whatever order the database gives them. */
  method PermissionRows(roles: Roles, chain: set<RoleCode>) returns (rows: seq<Row>)
    requires chain <= roles.Keys
    ensures forall p, s :: RowsCover(rows, p, s) <==> exists r :: r in chain && RoleGives(roles, r, p, s)
  {
    rows := [];
    var todo := chain;
    while todo != {}
      invariant todo <= chain
      invariant forall p, s :: RowsCover(rows, p, s) <==> exists r :: r in chain - todo && RoleGives(roles, r, p, s)
    {
      var r :| r in todo;
      ghost var before := rows;
      var mine := RowsOf(roles[r].grants);
      rows := rows + mine;
      forall p, s ensures RowsCover(rows, p, s) <==>
        exists q :: q in chain - (todo - {r}) && RoleGives(roles, q, p, s)
      {
        RowsCoverConcat(before, mine, p, s);
        assert RowsCover(before, p, s) <==> exists q :: q in chain - todo && RoleGives(roles, q, p, s);
        assert RowsCover(mine, p, s) <==> RoleGives(roles, r, p, s);
        if q :| q in chain - todo && RoleGives(roles, q, p, s) { assert q in chain - (todo - {r}); }
        if q :| q in chain - (todo - {r}) && RoleGives(roles, q, p, s) { assert q == r || q in chain - todo; }
        assert r in chain - (todo - {r});
      }
      todo := todo - {r};
    }
    assert chain - todo == chain;
  }

  lemma RowsCoverConcat(a: seq<Row>, b: seq<Row>, p: Perm, s: Scope)
    ensures RowsCover(a + b, p, s) <==> RowsCover(a, p, s) || RowsCover(b, p, s)
  {
    if RowsCover(a, p, s) {
      var i :| 0 <= i < |a| && a[i].perm == p && (s == All ==> a[i].scope == All);
      assert (a + b)[i] == a[i];
    }
    if RowsCover(b, p, s) {
      var i :| 0 <= i < |b| && b[i].perm == p && (s == All ==> b[i].scope == All);
      assert (a + b)[|a| + i] == b[i];
    }
  }

  method RowsOf(grants: Grants) returns (rows: seq<Row>)
    ensures forall p, s :: RowsCover(rows, p, s) <==> Covers(grants, p, s)
  {
    rows := [];
    var todo := grants.Keys;
    while todo != {}
      invariant todo <= grants.Keys
      invariant forall p, s :: RowsCover(rows, p, s) <==> p !in todo && Covers(grants, p, s)
    {
      var p :| p in todo;
      ghost var before := rows;
      rows := rows + [Row(p, grants[p])];
      forall q, s ensures RowsCover(rows, q, s) <==> q !in todo - {p} && Covers(grants, q, s) {
        RowsCoverConcat(before, [Row(p, grants[p])], q, s);
        assert RowsCover(before, q, s) <==> q !in todo && Covers(grants, q, s);
        assert [Row(p, grants[p])][0] == Row(p, grants[p]);
      }
      todo := todo - {p};
    }
  }

  lemma CodesNext(codes: seq<RoleCode>, i: nat)
    requires i < |codes|
    ensures Codes(codes[..i + 1]) == Codes(codes[..i]) + {codes[i]}
  {
    assert codes[..i + 1] == codes[..i] + [codes[i]];
  }

  lemma ChainOfInside(roles: Roles, cs: set<RoleCode>, hops: nat, activeOnly: bool, r: RoleCode)
    requires ChainOf(roles, cs, hops, activeOnly, r)
    ensures r in roles
  {
    var c :| c in cs && InChain(roles, c, hops, activeOnly, r);
    ChainInside(roles, c, hops, activeOnly, r);
  }

  // ---- the tables ------------------------------------------------------------------------------------------

  /** What the caller of a request is found to hold: what the cache answers, if it does. */
  ghost function FoundIn(t: Tenant, u: User, cached: Option<Grants>): Grants {
    if cached.Some? then cached.value else Effective(t, u)
  }

  class Store {
    var roles: Roles
    var members: map<User, set<RoleCode>>

    constructor (roles: Roles, members: map<User, set<RoleCode>>)
      ensures View() == Tenant(roles, members)
    {
      this.roles, this.members := roles, members;
    }

    ghost function View(): Tenant
      reads this
    {
      Tenant(roles, members)
    }

    /** UserGrants on a fresh read: the query and the fold. */
    method UserGrants(user: User) returns (grants: Grants)
      ensures grants == Effective(View(), user)
    {
      var direct := if user in members then members[user] else {};
      var chain := ChainQuery(roles, direct, MAX_HOPS, true);
      forall r | ChainOf(roles, direct, MAX_HOPS, true, r) ensures r in roles {
        ChainOfInside(roles, direct, MAX_HOPS, true, r);
      }
      forall r ensures r in chain <==> r in UserRoles(View(), user) {
        assert ChainOf(roles, direct, MAX_HOPS, true, r) <==> Reaches(View(), user, r);
      }
      var rows := PermissionRows(roles, chain);
      grants := FoldRows(rows);
      forall p, s ensures Covers(grants, p, s) <==> Covers(Effective(View(), user), p, s) {
        GrantsOfCovers(roles, chain, p, s);
        assert Covers(grants, p, s) <==> RowsCover(rows, p, s);
      }
      Antisymmetry(grants, Effective(View(), user));
    }

    method RoleWithinGrants(code: RoleCode, mine: Grants) returns (ok: bool)
      ensures ok <==> RoleWithin(roles, code, mine)
    {
      var chain := ChainQuery(roles, {code}, MAX_HOPS, false);
      forall r | ChainOf(roles, {code}, MAX_HOPS, false, r) ensures r in roles {
        ChainOfInside(roles, {code}, MAX_HOPS, false, r);
      }
      var rows := PermissionRows(roles, chain);
      for i := 0 to |rows|
        invariant forall k :: 0 <= k < i ==> Covers(mine, rows[k].perm, rows[k].scope)
      {
        if !Covers(mine, rows[i].perm, rows[i].scope) {
          assert RowsCover(rows, rows[i].perm, rows[i].scope);
          return false;
        }
      }
      forall r, p, s | InChain(roles, code, MAX_HOPS, false, r) && RoleGives(roles, r, p, s)
        ensures Covers(mine, p, s)
      {
        assert code in {code} && r in chain;
        assert RowsCover(rows, p, s);
      }
      return true;
    }

    /** Every role of the set is within the grants; the rows are tried in any order. */
    method AllWithin(codes: set<RoleCode>, mine: Grants) returns (ok: bool)
      ensures ok <==> forall c :: c in codes ==> RoleWithin(roles, c, mine)
    {
      var todo := codes;
      while todo != {}
        invariant todo <= codes && forall c :: c in codes - todo ==> RoleWithin(roles, c, mine)
      {
        var c :| c in todo;
        ok := RoleWithinGrants(c, mine);
        if !ok { return; }
        todo := todo - {c};
      }
      ok := true;
    }

    /** assignRoles. When it fails the statements already run are left for the caller to roll back. */
    method AssignRoles(user: User, codes: array<RoleCode>, mine: Grants) returns (ok: bool)
      requires user in members
      modifies `members, codes
      ensures ok <==> Assignable(old(View()), old(members[user]), old(codes[..]), mine)
      ensures ok ==> members == old(members)[user := Codes(old(codes[..]))]
    {
      ghost var asked := codes[..];
      if codes.Length > MAX_ASSIGNED { return false; }
      var n := Dedupe(codes);
      FirstsExact(asked);
      ghost var firsts := Firsts(asked);
      var keep := set i | 0 <= i < n :: codes[i];
      assert keep == Codes(asked) by {
        forall c ensures c in keep <==> c in Codes(asked) { assert c in codes[..n] <==> c in keep; }
      }
      ok := AllWithin(members[user] - keep, mine);
      if !ok { return; }
      members := members[user := {}];
      assert Codes(firsts[..0]) == {};
      for i := 0 to n
        invariant members == old(members)[user := Codes(firsts[..i])]
        invariant forall k :: 0 <= k < i ==> firsts[k] in roles && RoleWithin(roles, firsts[k], mine)
        invariant codes[..n] == firsts
      {
        var code := codes[i];
        assert code == firsts[i] && code in asked;
        ok := RoleWithinGrants(code, mine);
        if !ok { return; }
        if code !in roles { return false; }
        CodesNext(firsts, i);
        members := members[user := members[user] + {code}];
      }
      assert firsts[..n] == firsts && Codes(firsts) == Codes(asked);
      ok := true;
    }

    method TenantHasAdmin() returns (ok: bool)
      ensures ok <==> HasAdmin(members)
    {
      var todo := members.Keys;
      while todo != {}
        invariant todo <= members.Keys
        invariant forall u :: u in members.Keys - todo ==> "admin" !in members[u]
      {
        var u :| u in todo;
        if "admin" in members[u] { return true; }
        todo := todo - {u};
      }
      ok := false;
    }

    /** UserGrants, with the answer of its cache. */
    method Found(u: User, cached: Option<Grants>) returns (mine: Grants)
      ensures mine == FoundIn(View(), u, cached)
    {
      if cached.Some? { return cached.value; }
      mine := UserGrants(u);
    }

    method CreateRole(actor: User, cached: Option<Grants>, code: RoleCode, fieldsOk: bool, implies: RoleCode)
      returns (outcome: Outcome)
      modifies this
      ensures (outcome, View()) ==
        ApplyWith(old(View()), FoundIn(old(View()), actor, cached), Op.CreateRole(actor, code, fieldsOk, implies))
    {
      if !RoleCodeShape(code) || !fieldsOk { return BadRequest; }
      if implies != "" {
        var mine := Found(actor, cached);
        var ok := RoleWithinGrants(implies, mine);
        if !ok { return BadRequest; }
      }
      if implies == code { return ServerError; }
      if code in roles { return Conflict; }
      if implies != "" && implies !in roles { return BadRequest; }
      roles := roles[code := Role(if implies == "" then None else Some(implies), true, map[])];
      outcome := Done;
    }

    /** The loop that inserts the wanted grants, over a map whose order is not defined. */
    method InsertGrants(code: RoleCode, existing: Grants, wanted: map<Perm, string>, mine: Grants, catalogue: Catalogue)
      returns (ok: bool)
      requires code in roles && roles[code].grants == map[]
      modifies `roles
      ensures ok <==> forall p :: p in wanted ==> MayGive(existing, wanted, mine, catalogue, p)
      ensures ok ==> roles == old(roles)[code := old(roles)[code].(grants := Wanted(wanted))]
    {
      var todo := wanted.Keys;
      ghost var granted := map[];
      while todo != {}
        invariant todo <= wanted.Keys && granted == Wanted(wanted) - todo
        invariant roles == old(roles)[code := old(roles)[code].(grants := granted)]
        invariant forall p :: p in wanted.Keys - todo ==> MayGive(existing, wanted, mine, catalogue, p)
      {
        var p :| p in todo;
        var scope := Normal(wanted[p]);
        var kept := p in existing && (existing[p] == All || existing[p] == scope);
        if !kept && !Covers(mine, p, scope) { return false; }
        if scope == Own {
          if p !in catalogue { return false; }
          if !catalogue[p] { return false; }
        }
        if p !in catalogue { return false; }
        roles := roles[code := roles[code].(grants := roles[code].grants[p := scope])];
        granted := granted[p := scope];
        todo := todo - {p};
      }
      assert granted == Wanted(wanted);
      ok := true;
    }

    /** The transaction of SetGrants once the role is known to be editable. */
    method ReplaceGrants(code: RoleCode, wanted: map<Perm, string>, mine: Grants, catalogue: Catalogue)
      returns (ok: bool)
      requires code in roles
      modifies `roles
      ensures ok <==> GrantsAllowed(old(roles)[code].grants, wanted, mine, catalogue)
      ensures roles == if ok then old(roles)[code := old(roles)[code].(grants := Wanted(wanted))] else old(roles)
    {
      var saved := roles;
      var existing := roles[code].grants;
      roles := roles[code := roles[code].(grants := map[])];
      ok := RemovalsAllowed(existing, wanted, mine);
      if ok { ok := InsertGrants(code, existing, wanted, mine, catalogue); }
      if !ok { roles := saved; }
    }

    method SetGrants(actor: User, cached: Option<Grants>, code: RoleCode, wanted: map<Perm, string>,
                     catalogue: Catalogue)
      returns (outcome: Outcome)
      modifies this
      ensures (outcome, View()) ==
        ApplyWith(old(View()), FoundIn(old(View()), actor, cached), Op.SetGrants(actor, code, wanted, catalogue))
    {
      if |wanted| > MAX_GRANTS { return BadRequest; }
      var mine := Found(actor, cached);
      if code !in roles { return NotFound; }
      if code == "admin" { return BadRequest; }
      var ok := ReplaceGrants(code, wanted, mine, catalogue);
      outcome := if ok then Done else BadRequest;
    }

    method RemovalsAllowed(existing: Grants, wanted: map<Perm, string>, mine: Grants) returns (ok: bool)
      ensures ok <==> forall p :: p in existing ==> MayTake(existing, wanted, mine, p)
    {
      var todo := existing.Keys;
      while todo != {}
        invariant todo <= existing.Keys
        invariant forall p :: p in existing.Keys - todo ==> MayTake(existing, wanted, mine, p)
      {
        var p :| p in todo;
        var narrowed := p in wanted && existing[p] == All && Normal(wanted[p]) == Own;
        if (p !in wanted || narrowed) && !Covers(mine, p, existing[p]) {
          assert !MayTake(existing, wanted, mine, p);
          return false;
        }
        todo := todo - {p};
      }
      ok := true;
    }

    method AddMember(actor: User, cached: Option<Grants>, intake: Intake, asked: array<RoleCode>)
      returns (outcome: Outcome)
      modifies this, asked
      ensures (outcome, View()) ==
        ApplyWith(old(View()), FoundIn(old(View()), actor, cached), Op.AddMember(actor, intake, old(asked[..])))
    {
      if Refusal(intake).Some? { return Refusal(intake).value; }
      var user := intake.user;
      var codes := asked;
      if asked.Length == 0 {
        codes := new RoleCode[1](_ => "user");
        assert codes[..] == ["user"];
      }
      var mine := Found(actor, cached);
      if user in members { return Conflict; }
      var saved := members;
      members := members[user := {}];
      label Inserted:
      var ok := AssignRoles(user, codes, mine);
      AssignableSame(old(View()), old@Inserted(View()), {}, old@Inserted(codes[..]), mine);
      if !ok {
        members := saved;
        return BadRequest;
      }
      assert members == saved[user := Codes(old@Inserted(codes[..]))];
      outcome := Done;
    }

    method SetMemberRoles(actor: User, cached: Option<Grants>, target: User, codes: array<RoleCode>)
      returns (outcome: Outcome)
      modifies this, codes
      ensures (outcome, View()) ==
        ApplyWith(old(View()), FoundIn(old(View()), actor, cached), Op.SetMemberRoles(actor, target, old(codes[..])))
    {
      var mine := Found(actor, cached);
      if target !in members { return NotFound; }
      var saved := members;
      var ok := AssignRoles(target, codes, mine);
      if !ok {
        members := saved;
        return BadRequest;
      }
      ok := TenantHasAdmin();
      if !ok {
        members := saved;
        return Conflict;
      }
      outcome := Done;
    }

    method RemoveMember(actor: User, cached: Option<Grants>, target: User)
      returns (outcome: Outcome)
      modifies this
      ensures (outcome, View()) ==
        ApplyWith(old(View()), FoundIn(old(View()), actor, cached), Op.RemoveMember(actor, target))
    {
      var mine := Found(actor, cached);
      var held := if target in members then members[target] else {};
      var ok := AllWithin(held, mine);
      if !ok { return BadRequest; }
      if target !in members || target == actor { return NotFound; }
      var saved := members;
      members := Without(members, target);
      ok := TenantHasAdmin();
      if !ok {
        members := saved;
        return Conflict;
      }
      outcome := Done;
    }
  }

  lemma AssignableSame(t: Tenant, t': Tenant, existing: set<RoleCode>, codes: seq<RoleCode>, mine: Grants)
    requires t'.roles == t.roles
    ensures Assignable(t', existing, codes, mine) <==> Assignable(t, existing, codes, mine)
  {
  }
}
