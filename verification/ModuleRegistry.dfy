/** Registering the modules compiled into a binary, and what their names keep apart. */
module ModuleRegistry {
  import opened Common
  import opened Names
  import opened Grants
  import Seed
  import Upgrade
  import Ordering

  datatype Module = Module(id: string, shortId: string, perms: seq<Seed.Permission>, menus: seq<string>)

  const RESERVED: set<string> :=
    {"core", "api", "admin", "platform", "store", "apps", "developers", "login", "signup", "dashboard", "members",
     "roles", "audit", "settings", "org"}

  predicate MenuInside(m: Module, path: string) {
    HasPrefix(path, "/" + m.shortId + "/") || path == "/" + m.shortId
  }

  /** The permission is well formed, carries the module's prefix, and asks for own scope only when it supports it. */
  predicate GoodPerm(m: Module, p: Seed.Permission) {
    && Dotted(p.code) && HasPrefix(p.code, m.shortId + ".")
    && (forall j :: 0 <= j < |p.defaultRoles| && HasSuffix(p.defaultRoles[j], ":own") ==> p.ownScope)
  }

  predicate GoodModule(m: Module) {
    && ModuleId(m.id) && ShortId(m.shortId) && m.shortId !in RESERVED
    && (forall i :: 0 <= i < |m.menus| ==> MenuInside(m, m.menus[i]))
    && (forall i :: 0 <= i < |m.perms| ==> GoodPerm(m, m.perms[i]))
  }

  /** 3 to 128 lower-case letters, digits, underscores and dots, starting with a letter. */
  predicate IdText(id: string) {
    3 <= |id| <= 128 && 'a' <= id[0] <= 'z' && forall i :: 0 <= i < |id| ==> NameChar(id[i]) || id[i] == '.'
  }

  /** Every menu leads to the module's own pages. */
  predicate MenusInside(m: Module) {
    forall path :: path in m.menus ==> path == "/" + m.shortId || "/" + m.shortId + "/" <= path
  }

  /** What Register asks of a module on its own, field by field. */
  lemma GoodExact(m: Module)
    ensures GoodModule(m) <==>
      && IdText(m.id) && ShortText(m.shortId) && !Reserved(m.shortId) && MenusInside(m)
      && (forall p :: p in m.perms ==> GoodCode(m, p))
  {
    ShortExact(m.shortId);
    IdExact(m.id);
    MenusExact(m);
    PermsExact(m);
    ReservedExact(m.shortId);
  }

  lemma IdExact(id: string)
    ensures ModuleId(id) <==> IdText(id)
  {
    forall c ensures WordChar(c) <==> NameChar(c) {}
  }

  lemma ReservedExact(id: string)
    ensures id in RESERVED <==> Reserved(id)
  {
  }

  lemma MenusExact(m: Module)
    ensures (forall i :: 0 <= i < |m.menus| ==> MenuInside(m, m.menus[i])) <==> MenusInside(m)
  {
    if MenusInside(m) {
      forall i | 0 <= i < |m.menus| ensures MenuInside(m, m.menus[i]) { assert m.menus[i] in m.menus; }
    }
  }

  lemma PermsExact(m: Module)
    ensures (forall i :: 0 <= i < |m.perms| ==> GoodPerm(m, m.perms[i])) <==>
      forall p :: p in m.perms ==> GoodCode(m, p)
  {
    forall p ensures GoodPerm(m, p) <==> GoodCode(m, p) { GoodCodeExact(m, p); }
    if forall p :: p in m.perms ==> GoodCode(m, p) {
      forall i | 0 <= i < |m.perms| ensures GoodPerm(m, m.perms[i]) { assert m.perms[i] in m.perms; }
    }
  }

  predicate Reserved(id: string) {
    || id == "core" || id == "api" || id == "admin" || id == "platform" || id == "store" || id == "apps"
    || id == "developers" || id == "login" || id == "signup" || id == "dashboard" || id == "members" || id == "roles"
    || id == "audit" || id == "settings" || id == "org"
  }

  /** A dotted code under the module's short id, with own defaults only where own scope is supported. */
  ghost predicate GoodCode(m: Module, p: Seed.Permission) {
    && DottedText(p.code) && m.shortId + "." <= p.code
    && forall dr :: dr in p.defaultRoles && |dr| >= 4 && dr[|dr| - 4..] == ":own" ==> p.ownScope
  }

  lemma GoodCodeExact(m: Module, p: Seed.Permission)
    ensures GoodPerm(m, p) <==> GoodCode(m, p)
  {
    DottedExact(p.code);
    if GoodCode(m, p) {
      forall j | 0 <= j < |p.defaultRoles| && HasSuffix(p.defaultRoles[j], ":own") ensures p.ownScope {
        assert p.defaultRoles[j] in p.defaultRoles;
      }
    }
  }

  predicate Apart(a: Module, b: Module) {
    a.id != b.id && a.shortId != b.shortId
  }

  /** What every registry satisfies. */
  ghost predicate Sound(registry: seq<Module>) {
    && (forall i :: 0 <= i < |registry| ==> GoodModule(registry[i]))
    && (forall i, j :: 0 <= i < j < |registry| ==> Apart(registry[i], registry[j]))
  }

  class Registry {
    var modules: seq<Module>

    constructor ()
      ensures modules == [] && Sound(modules)
    {
      modules := [];
    }

    /** Register; a violation stops the binary, here it is refused. */
    method Register(m: Module) returns (ok: bool)
      requires Sound(modules)
      modifies this
      ensures ok <==> GoodModule(m) && forall r :: r in old(modules) ==> Apart(r, m)
      ensures modules == if ok then old(modules) + [m] else old(modules)
      ensures Sound(modules)
    {
      if !ModuleId(m.id) { return false; }
      if !ShortId(m.shortId) { return false; }
      if m.shortId in RESERVED { return false; }
      for i := 0 to |m.menus|
        invariant forall k :: 0 <= k < i ==> MenuInside(m, m.menus[k])
      {
        if !MenuInside(m, m.menus[i]) { return false; }
      }
      for i := 0 to |modules|
        invariant forall k :: 0 <= k < i ==> Apart(modules[k], m)
      {
        if modules[i].id == m.id || modules[i].shortId == m.shortId {
          assert modules[i] in modules && !Apart(modules[i], m);
          return false;
        }
      }
      for i := 0 to |m.perms|
        invariant modules == old(modules)
        invariant forall k :: 0 <= k < i ==> GoodPerm(m, m.perms[k])
      {
        ok := CheckPerm(m, m.perms[i]);
        if !ok { return; }
      }
      modules := modules + [m];
      ok := true;
    }

    /** Registered: the modules in the order of their ids. */
    method Registered() returns (out: seq<Module>)
      requires Sound(modules)
      ensures |out| == |modules| && Distinct(out) && forall m :: m in out <==> m in modules
      ensures forall i, j :: 0 <= i < j < |out| ==> Ordering.Leq(out[i].id, out[j].id)
    {
      out := [];
      for i := 0 to |modules|
        invariant |out| == i && Distinct(out) && forall m :: m in out <==> m in modules[..i]
        invariant InOrder(out)
      {
        assert modules[i] !in modules[..i] by { ApartBefore(modules, i); }
        out := Insert(out, modules[i]);
        assert modules[..i + 1] == modules[..i] + [modules[i]];
      }
      assert modules[..|modules|] == modules;
    }
  }

  method CheckPerm(m: Module, p: Seed.Permission) returns (ok: bool)
    ensures ok <==> GoodPerm(m, p)
  {
    if !Dotted(p.code) { return false; }
    if !HasPrefix(p.code, m.shortId + ".") { return false; }
    for j := 0 to |p.defaultRoles|
      invariant forall k :: 0 <= k < j && HasSuffix(p.defaultRoles[k], ":own") ==> p.ownScope
    {
      if HasSuffix(p.defaultRoles[j], ":own") && !p.ownScope { return false; }
    }
    ok := true;
  }

  lemma ApartBefore(registry: seq<Module>, i: nat)
    requires Sound(registry) && i < |registry|
    ensures registry[i] !in registry[..i]
  {
    forall j | 0 <= j < i ensures registry[j] != registry[i] { assert Apart(registry[j], registry[i]); }
  }

  ghost predicate InOrder(out: seq<Module>) {
    forall i, j :: 0 <= i < j < |out| ==> Ordering.Leq(out[i].id, out[j].id)
  }

  /** The place of a module among sorted ones. */
  method Insert(sorted: seq<Module>, m: Module) returns (out: seq<Module>)
    requires InOrder(sorted) && Distinct(sorted) && m !in sorted
    ensures InOrder(out) && Distinct(out) && |out| == |sorted| + 1 && forall x :: x in out <==> x == m || x in sorted
  {
    var k := 0;
    while k < |sorted| && Ordering.Leq(sorted[k].id, m.id)
      invariant k <= |sorted| && forall i :: 0 <= i < k ==> Ordering.Leq(sorted[i].id, m.id)
    {
      k := k + 1;
    }
    out := sorted[..k] + [m] + sorted[k..];
    InsertedOrder(sorted, m, k);
    InsertedDistinct(sorted, m, k);
    assert sorted == sorted[..k] + sorted[k..];
  }

  lemma InsertedOrder(sorted: seq<Module>, m: Module, k: nat)
    requires InOrder(sorted) && k <= |sorted| && forall i :: 0 <= i < k ==> Ordering.Leq(sorted[i].id, m.id)
    requires k < |sorted| ==> !Ordering.Leq(sorted[k].id, m.id)
    ensures InOrder(sorted[..k] + [m] + sorted[k..])
  {
    var out := sorted[..k] + [m] + sorted[k..];
    forall i | k <= i < |sorted| ensures Ordering.Leq(m.id, sorted[i].id) {
      Ordering.LeqTotal(m.id, sorted[k].id);
      if i > k { Ordering.LeqTrans(m.id, sorted[k].id, sorted[i].id); }
    }
    forall i | 0 <= i < |out| ensures out[i] == if i < k then sorted[i] else if i == k then m else sorted[i - 1] {}
  }

  lemma InsertedDistinct(sorted: seq<Module>, m: Module, k: nat)
    requires Distinct(sorted) && k <= |sorted| && m !in sorted
    ensures Distinct(sorted[..k] + [m] + sorted[k..])
  {
    var out := sorted[..k] + [m] + sorted[k..];
    forall i | 0 <= i < |out| ensures out[i] == if i < k then sorted[i] else if i == k then m else sorted[i - 1] {}
  }

  // ---- over any sequence of registrations ---------------------------------------------------------------------------

  function Registering(registry: seq<Module>, m: Module): seq<Module> {
    if GoodModule(m) && forall r :: r in registry ==> Apart(r, m) then registry + [m] else registry
  }

  function RegisterAll(registry: seq<Module>, ms: seq<Module>): seq<Module>
    decreases |ms|
  {
    if ms == [] then registry else RegisterAll(Registering(registry, ms[0]), ms[1..])
  }

  lemma {:induction false} RegisterAllSound(registry: seq<Module>, ms: seq<Module>)
    requires Sound(registry)
    ensures Sound(RegisterAll(registry, ms))
    decreases |ms|
  {
    if ms != [] {
      RegisterAllSound(Registering(registry, ms[0]), ms[1..]);
    }
  }

  /** After any sequence of registrations, a permission code belongs to one module, and none starts like the core's. */
  lemma CodesApart(ms: seq<Module>, i: nat, j: nat, p: nat, code: string)
    requires var r := RegisterAll([], ms);
      i < |r| && j < |r| && p < |r[i].perms| && code == r[i].perms[p].code && HasPrefix(code, r[j].shortId + ".")
    ensures i == j && !HasPrefix(code, "core.")
  {
    RegisterAllSound([], ms);
    var r := RegisterAll([], ms);
    assert GoodModule(r[i]) && GoodModule(r[j]) && GoodPerm(r[i], r[i].perms[p]);
    PrefixSeparates(r[i].shortId, r[j].shortId, code);
    if HasPrefix(code, "core.") {
      assert "core" + "." == "core.";
      PrefixSeparates(r[i].shortId, "core", code);
    }
  }

  /** A code the platform or a registered module declares. */
  ghost predicate Declared(registry: seq<Module>, code: string) {
    HasPrefix(code, "core.") || exists i, p ::
      0 <= i < |registry| && 0 <= p < |registry[i].perms| && registry[i].perms[p].code == code
  }

  /** The test that shows a module's menu: some granted code has its prefix. */
  method MenuVisible(shortId: string, grants: Grants) returns (hasAny: bool)
    ensures hasAny <==> exists code :: code in grants && HasPrefix(code, shortId + ".")
  {
    var todo := grants.Keys;
    while todo != {}
      invariant todo <= grants.Keys && forall code :: code in grants.Keys - todo ==> !HasPrefix(code, shortId + ".")
    {
      var code :| code in todo;
      if HasPrefix(code, shortId + ".") { return true; }
      todo := todo - {code};
    }
    hasAny := false;
  }

  /** A granted code with the module's prefix that nobody declares any more, left by a module that is gone. */
  ghost predicate Leftover(registry: seq<Module>, m: Module, code: string) {
    HasPrefix(code, m.shortId + ".") && !Declared(registry, code)
  }

  /** After any sequence of registrations, and for any grants, a module's menu is shown exactly when one of its own
      permissions or a leftover with its prefix is granted. */
  lemma MenuMatchesOwn(ms: seq<Module>, i: nat, grants: Grants)
    requires i < |RegisterAll([], ms)|
    ensures var m := RegisterAll([], ms)[i];
      (exists code :: code in grants && HasPrefix(code, m.shortId + ".")) <==>
      (exists p :: 0 <= p < |m.perms| && m.perms[p].code in grants)
      || (exists code :: code in grants && Leftover(RegisterAll([], ms), m, code))
  {
    RegisterAllSound([], ms);
    var r := RegisterAll([], ms);
    var m := r[i];
    assert GoodModule(m);
    if code :| code in grants && HasPrefix(code, m.shortId + ".") {
      if HasPrefix(code, "core.") {
        assert "core" + "." == "core.";
        PrefixSeparates(m.shortId, "core", code);
      } else if Declared(r, code) {
        var j, p :| 0 <= j < |r| && 0 <= p < |r[j].perms| && r[j].perms[p].code == code;
        CodesApart(ms, j, i, p, code);
      } else {
        assert Leftover(r, m, code);
      }
    }
    if p :| 0 <= p < |m.perms| && m.perms[p].code in grants {
      assert GoodPerm(m, m.perms[p]);
    }
  }

  /** What Register checks is what the upgrade comparison relies on. */
  lemma RegisteredOwnScope(ms: seq<Module>, i: nat)
    requires i < |RegisterAll([], ms)|
    ensures Upgrade.OwnScopeRule(RegisterAll([], ms)[i].perms)
  {
    RegisterAllSound([], ms);
    var m := RegisterAll([], ms)[i];
    forall k | 0 <= k < |m.perms| ensures GoodPerm(m, m.perms[k]) {}
  }
}
