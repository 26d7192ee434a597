/** The upgrade gate of a distribution: a new manifest that would grant more is refused unless approved. */
module Upgrade {
  import opened Common
  import opened Grants
  import opened Seed

  type Manifest = seq<Permission>

  datatype Finding = NewCode(code: Perm) | NewRole(code: Perm, role: string)

  /** The definition of a code in the old manifest; a later one replaces an earlier one. */
  function Latest(prior: Manifest): map<Perm, Permission> {
    if prior == [] then map[] else Latest(prior[..|prior| - 1])[prior[|prior| - 1].code := prior[|prior| - 1]]
  }

  lemma {:induction false} LatestInside(prior: Manifest, c: Perm)
    requires c in Latest(prior)
    ensures Latest(prior)[c] in prior && Latest(prior)[c].code == c
  {
    var n := |prior| - 1;
    assert prior == prior[..n] + [prior[n]];
    if prior[n].code != c { LatestInside(prior[..n], c); }
  }

  /** The permission, added to the old manifest, is reported as this finding. */
  predicate Reports(prev: map<Perm, Permission>, perm: Permission, f: Finding) {
    match f
    case NewCode(c) => perm.code == c && c !in prev
    case NewRole(c, r) => perm.code == c && c in prev && r in perm.defaultRoles && r !in prev[c].defaultRoles
  }

  predicate Widens(stored: Option<Manifest>, next: Manifest, f: Finding) {
    stored.Some? && exists i :: 0 <= i < |next| && Reports(Latest(stored.value), next[i], f)
  }

  /** permissionsWidened: reports exactly the new codes and the new default roles of known codes. Without a
      readable earlier manifest there is nothing to compare with and nothing is reported. */
  method PermissionsWidened(stored: Option<Manifest>, next: Manifest) returns (out: seq<Finding>)
    ensures forall f :: f in out <==> Widens(stored, next, f)
  {
    out := [];
    if stored.None? { return; }
    var prev := map[];
    for i := 0 to |stored.value|
      invariant prev == Latest(stored.value[..i])
    {
      assert stored.value[..i + 1][..i] == stored.value[..i];
      prev := prev[stored.value[i].code := stored.value[i]];
    }
    assert stored.value[..|stored.value|] == stored.value;
    for i := 0 to |next|
      invariant forall f :: f in out <==> exists k :: 0 <= k < i && Reports(prev, next[k], f)
    {
      var p := next[i];
      ghost var before := out;
      if p.code !in prev {
        out := out + [NewCode(p.code)];
        assert forall f :: f in out <==> f in before || Reports(prev, p, f);
      } else {
        var oldRoles := set r | r in prev[p.code].defaultRoles;
        for j := 0 to |p.defaultRoles|
          invariant forall f :: f in out <==> f in before || Reports(prev, p.(defaultRoles := p.defaultRoles[..j]), f)
        {
          if p.defaultRoles[j] !in oldRoles { out := out + [NewRole(p.code, p.defaultRoles[j])]; }
          assert p.defaultRoles[..j + 1] == p.defaultRoles[..j] + [p.defaultRoles[j]];
        }
        assert p.defaultRoles[..|p.defaultRoles|] == p.defaultRoles;
      }
    }
  }

  // ---- what is reported ------------------------------------------------------------------------------------------

  /** The last definition of the code in the manifest is at k. */
  ghost predicate LastAt(prior: Manifest, c: Perm, k: nat) {
    k < |prior| && prior[k].code == c && forall m :: k < m < |prior| ==> prior[m].code != c
  }

  lemma {:induction false} LatestExact(prior: Manifest, c: Perm)
    ensures c in Latest(prior) <==> exists q :: q in prior && q.code == c
    ensures c in Latest(prior) ==> exists k: nat :: LastAt(prior, c, k) && prior[k] == Latest(prior)[c]
  {
    if prior != [] {
      var n := |prior| - 1;
      var front := prior[..n];
      assert prior == front + [prior[n]];
      LatestExact(front, c);
      if prior[n].code == c {
        assert LastAt(prior, c, n);
      } else if k: nat :| LastAt(front, c, k) && front[k] == Latest(front)[c] {
        assert LastAt(prior, c, k);
      }
    }
  }

  lemma LastUnique(prior: Manifest, c: Perm, j: nat, k: nat)
    requires LastAt(prior, c, j) && LastAt(prior, c, k)
    ensures j == k
  {
  }

  /** What is reported: a code that no earlier definition has, and a default role that the last earlier definition of a
      code lacks. */
  lemma WidensExact(stored: Option<Manifest>, next: Manifest, c: Perm, r: string)
    ensures Widens(stored, next, NewCode(c)) <==>
      stored.Some? && (exists perm :: perm in next && perm.code == c) && forall q :: q in stored.value ==> q.code != c
    ensures Widens(stored, next, NewRole(c, r)) <==>
      && stored.Some? && (exists perm :: perm in next && perm.code == c && r in perm.defaultRoles)
      && exists k: nat :: LastAt(stored.value, c, k) && r !in stored.value[k].defaultRoles
  {
    if stored.Some? {
      LatestExact(stored.value, c);
      forall perm ensures perm in next <==> exists i :: 0 <= i < |next| && next[i] == perm {}
      if k: nat :| LastAt(stored.value, c, k) && r !in stored.value[k].defaultRoles {
        assert stored.value[k] in stored.value;
        var j: nat :| LastAt(stored.value, c, j) && stored.value[j] == Latest(stored.value)[c];
        LastUnique(stored.value, c, j, k);
      }
      if perm :| perm in next && perm.code == c && r in perm.defaultRoles {
        var i :| 0 <= i < |next| && next[i] == perm;
      }
    }
  }

  // ---- nothing reported means nothing wider -------------------------------------------------------------------

  /** Register's rule: an own default needs a permission that supports own scope. */
  predicate OwnScopeRule(perms: Manifest) {
    forall i, j :: 0 <= i < |perms| && 0 <= j < |perms[i].defaultRoles| && HasSuffix(perms[i].defaultRoles[j], ":own")
      ==> perms[i].ownScope
  }

  ghost predicate Narrower(a: Manifest, b: Manifest) {
    forall role :: Leq(Declared(a, role), Declared(b, role))
  }

  /** With own scope declared wherever a default asks for it, the default alone decides the scope. */
  lemma OwnDefault(dr: string, ownScope: bool)
    requires HasSuffix(dr, ":own") ==> ownScope
    ensures TargetScope(dr, ownScope) == All ==> forall o :: TargetScope(dr, o) == All
  {
    var i := IndexFrom(dr, ':', 0);
    if i < |dr| && dr[i + 1..] == "own" {
      assert dr == dr[..i] + [':'] + dr[i + 1..];
      assert dr[|dr| - 4..] == ":own";
    }
  }

  /** A known code with no new default role gives no role more than the old definition did. */
  lemma GivesNoMore(was: Permission, perm: Permission, role: string, s: Scope)
    requires forall j :: 0 <= j < |perm.defaultRoles| && HasSuffix(perm.defaultRoles[j], ":own") ==> perm.ownScope
    requires forall r :: r in perm.defaultRoles ==> r in was.defaultRoles
    requires Gives(perm, role, s)
    ensures Gives(was, role, s)
  {
    if role != "admin" {
      var j :| 0 <= j < |perm.defaultRoles| && TargetRole(perm.defaultRoles[j]) == role
               && (s == All ==> TargetScope(perm.defaultRoles[j], perm.ownScope) == All);
      var dr := perm.defaultRoles[j];
      assert dr in perm.defaultRoles;
      var m :| 0 <= m < |was.defaultRoles| && was.defaultRoles[m] == dr;
      OwnDefault(dr, perm.ownScope);
    }
  }

  lemma SameCode(prior: Manifest, perm: Permission)
    requires forall f :: !Reports(Latest(prior), perm, f)
    ensures exists k :: 0 <= k < |prior| && prior[k].code == perm.code
                        && forall r :: r in perm.defaultRoles ==> r in prior[k].defaultRoles
  {
    assert !Reports(Latest(prior), perm, NewCode(perm.code));
    LatestInside(prior, perm.code);
    var was := Latest(prior)[perm.code];
    forall r | r in perm.defaultRoles ensures r in was.defaultRoles {
      assert !Reports(Latest(prior), perm, NewRole(perm.code, r));
    }
  }

  lemma NothingReported(prior: Manifest, next: Manifest)
    requires OwnScopeRule(next) && forall f :: !Widens(Some(prior), next, f)
    ensures Narrower(next, prior)
  {
    forall role, p, s | Covers(Declared(next, role), p, s) ensures Covers(Declared(prior, role), p, s) {
      DeclaredCovers(next, role, p, s);
      DeclaredCovers(prior, role, p, s);
      var i :| 0 <= i < |next| && next[i].code == p && Gives(next[i], role, s);
      forall f ensures !Reports(Latest(prior), next[i], f) { assert !Widens(Some(prior), next, f); }
      SameCode(prior, next[i]);
      var k :| 0 <= k < |prior| && prior[k].code == p && forall r :: r in next[i].defaultRoles ==>
        r in prior[k].defaultRoles;
      GivesNoMore(prior[k], next[i], role, s);
    }
  }

  // ---- runs of upgrades -----------------------------------------------------------------------------------------

  /** What an accepted upgrade gets done: the fetch can fail, main.go can be rewritten without the manifest copy
      being touched, the copy can be lost half-way, or all of it is done. */
  datatype Progress = FetchFailed | CopyKept | CopyLost | Complete

  /** One upgrade: the manifest that is built in, and the one the command reports on and keeps a copy of. They are the
      same unless a version is named, or the module comes with the core. */
  datatype Event = Upgrade(built: Manifest, compared: Manifest, approve: bool, progress: Progress)

  /** One module of a distribution: what is built in, the manifest copy kept for comparison, and every manifest
      somebody approved, in order. */
  datatype Dist = Dist(installed: Manifest, stored: Option<Manifest>, approved: seq<Manifest>)

  ghost predicate Accepted(d: Dist, e: Event) {
    e.approve || forall f :: !Widens(d.stored, e.compared, f)
  }

  ghost function After(d: Dist, e: Event): Dist {
    if !Accepted(d, e) || e.progress == FetchFailed then d
    else Dist(e.built,
              match e.progress case Complete => Some(e.compared) case CopyLost => None case _ => d.stored,
              ApprovedAfter(d, e))
  }

  function ApprovedAfter(d: Dist, e: Event): seq<Manifest> {
    if e.approve then d.approved + [e.compared] else d.approved
  }

  ghost function Run(d: Dist, events: seq<Event>): Dist
    decreases |events|
  {
    if events == [] then d else Run(After(d, events[0]), events[1..])
  }

  ghost predicate Approved(perms: Manifest, approved: seq<Manifest>) {
    exists i :: 0 <= i < |approved| && Narrower(perms, approved[i])
  }

  ghost predicate Backed(d: Dist) {
    Approved(d.installed, d.approved) && (d.stored.Some? ==> Approved(d.stored.value, d.approved))
  }

  /** The compared manifest follows Register's rule, it is compared with something unless it is approved, and what is
      built declares no more than it. */
  ghost predicate Guarded(d: Dist, e: Event) {
    OwnScopeRule(e.compared) && (e.approve || d.stored.Some?) && Narrower(e.built, e.compared)
  }

  lemma NarrowerSelf(a: Manifest)
    ensures Narrower(a, a)
  {
  }

  lemma NarrowerTrans(a: Manifest, b: Manifest, c: Manifest)
    requires Narrower(a, b) && Narrower(b, c)
    ensures Narrower(a, c)
  {
    forall role ensures Leq(Declared(a, role), Declared(c, role)) {
      assert Leq(Declared(a, role), Declared(b, role)) && Leq(Declared(b, role), Declared(c, role));
    }
  }

  lemma ApprovedNarrower(a: Manifest, b: Manifest, approved: seq<Manifest>)
    requires Narrower(a, b) && Approved(b, approved)
    ensures Approved(a, approved)
  {
    var i :| 0 <= i < |approved| && Narrower(b, approved[i]);
    NarrowerTrans(a, b, approved[i]);
  }

  lemma ApprovedMore(a: Manifest, approved: seq<Manifest>, x: Manifest)
    requires Approved(a, approved) || Narrower(a, x)
    ensures Approved(a, approved + [x])
  {
    var more := approved + [x];
    if Approved(a, approved) {
      var i :| 0 <= i < |approved| && Narrower(a, approved[i]);
      assert more[i] == approved[i];
    } else {
      assert more[|approved|] == x;
    }
  }

  /** Once accepted, the compared manifest is bounded by an approved one. */
  lemma ComparedApproved(d: Dist, e: Event)
    requires Backed(d) && OwnScopeRule(e.compared) && (e.approve || d.stored.Some?) && Accepted(d, e)
    ensures Approved(e.compared, ApprovedAfter(d, e))
  {
    if e.approve {
      NarrowerSelf(e.compared);
      ApprovedMore(e.compared, d.approved, e.compared);
    } else {
      NothingReported(d.stored.value, e.compared);
      ApprovedNarrower(e.compared, d.stored.value, d.approved);
    }
  }

  lemma StepApproved(d: Dist, e: Event)
    requires Backed(d) && Guarded(d, e) && Accepted(d, e)
    ensures Approved(e.compared, ApprovedAfter(d, e)) && Approved(e.built, ApprovedAfter(d, e))
    ensures d.stored.Some? ==> Approved(d.stored.value, ApprovedAfter(d, e))
  {
    ComparedApproved(d, e);
    ApprovedNarrower(e.built, e.compared, ApprovedAfter(d, e));
    if e.approve && d.stored.Some? { ApprovedMore(d.stored.value, d.approved, e.compared); }
  }

  lemma StepBacked(d: Dist, e: Event)
    requires Backed(d) && Guarded(d, e)
    ensures Backed(After(d, e))
  {
    if Accepted(d, e) && e.progress != FetchFailed {
      StepApproved(d, e);
      AfterShape(d, e);
    }
  }

  lemma AfterShape(d: Dist, e: Event)
    requires Accepted(d, e) && e.progress != FetchFailed
    ensures var d' := After(d, e);
      && d'.installed == e.built && d'.approved == ApprovedAfter(d, e)
      && (d'.stored == Some(e.compared) || d'.stored == None || d'.stored == d.stored)
  {
  }

  ghost predicate AllGuarded(d: Dist, events: seq<Event>)
    decreases |events|
  {
    events == [] || (Guarded(d, events[0]) && AllGuarded(After(d, events[0]), events[1..]))
  }

  /** However many upgrades go through, with whatever failures, what is built in declares for every role no more
      than some manifest that was approved, as long as every unapproved upgrade had a manifest to compare with and what
      was built declared no more than what was compared. */
  lemma {:induction false} UpgradesBacked(d: Dist, events: seq<Event>)
    requires Backed(d) && AllGuarded(d, events)
    ensures Backed(Run(d, events))
    decreases |events|
  {
    if events != [] {
      StepBacked(d, events[0]);
      UpgradesBacked(After(d, events[0]), events[1..]);
    }
  }

  ghost predicate WithinLast(d: Dist) {
    d.approved != [] && d.stored.Some? &&
    var last := d.approved[|d.approved| - 1];
    Narrower(d.installed, last) && Narrower(d.stored.value, last)
  }

  function LastApproved(d: Dist, e: Event): Manifest
    requires d.approved != []
  {
    if e.approve then e.compared else d.approved[|d.approved| - 1]
  }

  lemma AcceptedWithinLast(d: Dist, e: Event)
    requires WithinLast(d) && OwnScopeRule(e.compared) && Accepted(d, e)
    ensures Narrower(e.compared, LastApproved(d, e))
  {
    var prior, last := d.stored.value, d.approved[|d.approved| - 1];
    if e.approve {
      NarrowerSelf(e.compared);
    } else {
      assert Narrower(prior, last);
      assert Narrower(e.compared, prior) by { NothingReported(prior, e.compared); }
      NarrowerTrans(e.compared, prior, last);
    }
  }

  lemma StepWithinLast(d: Dist, e: Event)
    requires WithinLast(d) && Guarded(d, e) && (e.progress == FetchFailed || e.progress == Complete)
    ensures WithinLast(After(d, e))
  {
    if Accepted(d, e) && e.progress == Complete {
      var last, approved := LastApproved(d, e), ApprovedAfter(d, e);
      assert Narrower(e.compared, last) by { AcceptedWithinLast(d, e); }
      assert Narrower(e.built, last) by { NarrowerTrans(e.built, e.compared, last); }
      assert After(d, e) == Dist(e.built, Some(e.compared), approved) && approved[|approved| - 1] == last;
    }
  }

  /** When every upgrade either fails to fetch or completes, the bound is the manifest approved last. */
  lemma {:induction false} UpgradesWithinLast(d: Dist, events: seq<Event>)
    requires WithinLast(d)
    requires forall e :: e in events ==>
      OwnScopeRule(e.compared) && Narrower(e.built, e.compared) && (e.progress == FetchFailed || e.progress == Complete)
    ensures WithinLast(Run(d, events))
    decreases |events|
  {
    if events != [] {
      StepWithinLast(d, events[0]);
      UpgradesWithinLast(After(d, events[0]), events[1..]);
    }
  }

  /** The files of one module, as the upgrade command finds and leaves them. */
  class Distribution {
    var installed: Manifest
    var stored: Option<Manifest>
    ghost var approved: seq<Manifest>

    constructor (first: Manifest)
      ensures View() == Dist(first, Some(first), [first])
    {
      installed, stored, approved := first, Some(first), [first];
    }

    ghost function View(): Dist
      reads this
    {
      Dist(installed, stored, approved)
    }

    /** One target of the upgrade command; progress says how far fetching and copying get. */
    method UpgradeModule(built: Manifest, compared: Manifest, approve: bool, progress: Progress) returns (refused: bool)
      modifies this
      ensures View() == After(old(View()), Upgrade(built, compared, approve, progress))
      ensures refused <==> !approve && exists f :: Widens(old(stored), compared, f)
      ensures refused || progress == FetchFailed ==> View() == old(View())
      ensures !refused && progress != FetchFailed ==>
        && installed == built && (progress == Complete ==> stored == Some(compared))
        && (progress == CopyLost ==> stored == None) && (progress == CopyKept ==> stored == old(stored))
    {
      var widened := PermissionsWidened(stored, compared);
      refused := widened != [] && !approve;
      if refused {
        assert widened[0] in widened;
        return;
      }
      if progress == FetchFailed { return; }
      if approve { approved := approved + [compared]; }
      installed := built;
      if progress == CopyKept { return; }
      stored := None;
      if progress == CopyLost { return; }
      stored := Some(compared);
    }
  }

  // ---- when the gate bounds what it lets through ----------------------------------------------------------------

  function Longest(codes: seq<Perm>): (n: nat)
    ensures forall c :: c in codes ==> |c| <= n
  {
    if codes == [] then 0
    else
      var n := Longest(codes[1..]);
      assert codes == [codes[0]] + codes[1..];
      if |codes[0]| > n then |codes[0]| else n
  }

  function CodesOf(approved: seq<Manifest>): seq<Perm> {
    if approved == [] then []
    else seq(|approved[0]|, i requires 0 <= i < |approved[0]| => approved[0][i].code) + CodesOf(approved[1..])
  }

  lemma {:induction false} CodesOfAll(approved: seq<Manifest>, i: nat, k: nat)
    requires i < |approved| && k < |approved[i]|
    ensures approved[i][k].code in CodesOf(approved)
  {
    if i == 0 {
      assert CodesOf(approved)[k] == approved[0][k].code;
    } else {
      CodesOfAll(approved[1..], i - 1, k);
    }
  }

  /** A manifest with a code that no approved manifest has. */
  lemma Unapproved(approved: seq<Manifest>) returns (next: Manifest)
    ensures OwnScopeRule(next) && !Approved(next, approved)
  {
    var code := seq(Longest(CodesOf(approved)) + 1, i => 'x');
    next := [Permission(code, false, [])];
    forall i | 0 <= i < |approved| ensures !Narrower(next, approved[i]) {
      if Narrower(next, approved[i]) {
        assert next[0].code == code && Gives(next[0], "admin", All);
        DeclaredCovers(next, "admin", code, All);
        assert Leq(Declared(next, "admin"), Declared(approved[i], "admin"));
        DeclaredCovers(approved[i], "admin", code, All);
        var k :| 0 <= k < |approved[i]| && approved[i][k].code == code;
        CodesOfAll(approved, i, k);
        assert false;
      }
    }
  }

  /** The gate keeps every unapproved upgrade that builds what it compares within the approved manifests exactly when
      there is a readable earlier manifest. Without one, a manifest with a code nobody approved goes through. */
  lemma GateExact(d: Dist)
    requires Backed(d)
    ensures d.stored.Some? <==>
      forall next :: OwnScopeRule(next) && Accepted(d, Upgrade(next, next, false, Complete)) ==>
        Approved(next, d.approved)
  {
    if d.stored.Some? {
      forall next | OwnScopeRule(next) && Accepted(d, Upgrade(next, next, false, Complete))
        ensures Approved(next, d.approved)
      {
        NarrowerSelf(next);
        ComparedApproved(d, Upgrade(next, next, false, Complete));
      }
    } else {
      var next := Unapproved(d.approved);
      assert Accepted(d, Upgrade(next, next, false, Complete));
    }
  }

  /** The gate looks only at the compared manifest: whenever it lets one through, it does so for every manifest built
      in its place, among them some that declare more than anybody approved. */
  lemma GateBlindToBuilt(d: Dist, compared: Manifest)
    requires Accepted(d, Upgrade(compared, compared, false, Complete))
    ensures exists built :: !Approved(After(d, Upgrade(built, compared, false, Complete)).installed, d.approved)
  {
    var built := Unapproved(d.approved);
    assert Accepted(d, Upgrade(built, compared, false, Complete));
    assert After(d, Upgrade(built, compared, false, Complete)).installed == built;
  }
}
