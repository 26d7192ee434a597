/** What the token endpoint promises about token families, in every run from an empty database. */
module TokenFamilies {
  import opened Common
  import opened TokenMachine
  import opened TokenInvariants

  function LiveTokens(s: State, kind: Kind, f: Family): set<Hash> {
    set h | h in s.tokens && Live(s, h, kind, f)
  }

  /** The requests that hold the family: they took its last ticket and have not inserted their refresh token yet. */
  function Holders(s: State, f: Family): set<RequestId> {
    set r | r in s.flight && Holds(s, r, f)
  }

  lemma ReachableKeeps(clients: map<ClientId, Client>, es: seq<Event>)
    ensures TokenInv(Run(Init(clients), es))
  {
    RunKeeps(Init(clients), es);
  }

  /** However the statements of any number of requests interleave, a family never has two tickets. */
  lemma OneTicketPerFamily(clients: map<ClientId, Client>, es: seq<Event>, f: Family)
    ensures var s := Run(Init(clients), es);
      |LiveTokens(s, Refresh, f)| + |Holders(s, f)| <= 1 && |LiveTokens(s, Access, f)| <= 1
  {
    var s := Run(Init(clients), es);
    ReachableKeeps(clients, es);
    assert Exclusive(s, f);
    AtMostOne(LiveTokens(s, Refresh, f));
    AtMostOne(LiveTokens(s, Access, f));
    AtMostOne(Holders(s, f));
    if Holders(s, f) != {} {
      var r :| r in Holders(s, f);
      assert LiveTokens(s, Refresh, f) == {};
    }
  }

  /** A refresh token is followed by at most one refresh token and one access token, ever: tokens of
      one kind that were issued in exchange for the same refresh token are the same token. */
  lemma OneSuccessor(clients: map<ClientId, Client>, es: seq<Event>, h1: Hash, h2: Hash)
    requires var s := Run(Init(clients), es);
      h1 in s.issued && h2 in s.issued && s.issued[h1].kind == s.issued[h2].kind
        && s.issued[h1].slot == s.issued[h2].slot
    ensures h1 == h2
  {
    ReachableKeeps(clients, es);
    var s := Run(Init(clients), es);
    assert Fills(s, h1, s.issued[h1].kind, s.issued[h1].slot) && Fills(s, h2, s.issued[h1].kind, s.issued[h1].slot);
  }

  // ---- dead families ------------------------------------------------------------------------------

  /** No token of the family is live and no request in flight can still insert one. */
  ghost predicate Dead(s: State, f: Family) {
    f in s.families && (forall h, k :: !Live(s, h, k, f)) && (forall r :: !Holds(s, r, f))
  }

  lemma NeutralDead(s: State, s': State, f: Family)
    requires Dead(s, f) && Neutral(s, s')
    ensures Dead(s', f)
  {
    forall h, k ensures !Live(s', h, k, f) { assert NeutralRow(s, s', h) && !Live(s, h, k, f); }
    forall r ensures !Holds(s', r, f) { assert NeutralPhase(s, s', r) && !Holds(s, r, f); }
  }

  lemma GrantDead(s: State, g: GrantStep, f: Family)
    requires Dead(s, f)
    ensures Dead(GrantNext(s, g), f)
  {
    match g {
      case RedeemCode(r, c, h, verifier, redirect) =>
        if h in s.codes { RedeemNeutral(s, r, c, h, verifier, redirect); }
      case Credentials(r, c, scope) =>
      case Claim(r, c, h) =>
        if r !in s.flight {
          if ClaimMatches(s, c, h) {
            var s' := DoClaim(s, r, c, h);
            assert !Live(s, h, Refresh, f);
            forall x, k ensures !Live(s', x, k, f) { assert !Live(s, x, k, f); }
            forall q ensures !Holds(s', q, f) { assert !Holds(s, q, f); }
          } else {
            MissNeutral(s, r, c, h);
          }
        }
    }
    if Neutral(s, GrantNext(s, g)) { NeutralDead(s, GrantNext(s, g), f); }
  }

  lemma InsertDead(s: State, r: RequestId, h: Hash, t: Ticket, kind: Kind, f: Family)
    requires Dead(s, f) && Inserting(s, r, t, kind)
    ensures Dead(DoInsert(s, r, h, t, kind), f)
  {
    var s' := DoInsert(s, r, h, t, kind);
    assert !Holds(s, r, f);
    forall x, k ensures !Live(s', x, k, f) { assert !Live(s, x, k, f); }
    forall q ensures !Holds(s', q, f) { assert !Holds(s, q, f); }
  }

  lemma SweepDead(s: State, r: RequestId, t: Ticket, f: Family)
    requires Dead(s, f) && r in s.flight && s.flight[r] == Claimed(t)
    ensures Dead(DoSweep(s, r, t), f)
  {
    var s' := DoSweep(s, r, t);
    assert !Holds(s, r, f);
    forall x, k ensures !Live(s', x, k, f) { assert !Live(s, x, k, f); }
    forall q ensures !Holds(s', q, f) { assert !Holds(s, q, f); }
  }

  lemma MintDead(s: State, r: RequestId, g: Family, p: Phase, f: Family)
    requires Dead(s, f) && p.Redeemed? && g !in s.families
    ensures Dead(DoMint(s, r, g, p), f)
  {
    var s' := DoMint(s, r, g, p);
    forall x, k ensures !Live(s', x, k, f) { assert !Live(s, x, k, f); }
    forall q ensures !Holds(s', q, f) { assert !Holds(s, q, f); }
  }

  lemma ResumeDead(s: State, r: RequestId, p: Phase, x: Statement, f: Family)
    requires Dead(s, f) && r in s.flight && p == s.flight[r]
    ensures Dead(ResumeNext(s, r, p, x), f)
  {
    match x {
      case MintFamily(g) => if p.Redeemed? && g !in s.families { MintDead(s, r, g, p, f); }
      case Sweep => if p.Claimed? { SweepDead(s, r, p.ticket, f); }
      case InsertAccess(h) => if p.Ready? && h !in s.issued { InsertDead(s, r, h, p.ticket, Access, f); }
      case InsertRefresh(h) => if p.AccessOut? && h !in s.issued { InsertDead(s, r, h, p.ticket, Refresh, f); }
      case CheckActive(active) => if p.Swept? {
        CheckNeutral(s, r, p.ticket, active); NeutralDead(s, DoCheck(s, r, p.ticket, active), f);
      }
      case LookupReplay => if p.Missed? { LookupNeutral(s, r, p); NeutralDead(s, DoLookupReplay(s, r, p), f); }
      case RevokeReplay => if p.Replaying? {
        ReplayNeutral(s, r, p.target); NeutralDead(s, DoRevokeReplay(s, r, p.target), f);
      }
    }
  }

  lemma DeadStep(s: State, e: Event, f: Family)
    requires Dead(s, f)
    ensures Dead(Step(s, e), f)
  {
    match e {
      case Tick(d) => NeutralDead(s, Step(s, e), f);
      case Authorization(a) => AuthorizationNeutral(s, a); NeutralDead(s, Step(s, e), f);
      case Grant(g) => GrantDead(s, g, f);
      case Resume(r, x) =>
        if r in s.flight {
          ResumeDead(s, r, s.flight[r], x, f);
        }
      case Fail(r) => LandNeutral(s, r); NeutralDead(s, Step(s, e), f);
      case Revoke(c, h) => RevokeNeutral(s, c, h); if c in s.clients { NeutralDead(s, Step(s, e), f); }
      case Purge => PurgeNeutral(s); NeutralDead(s, Step(s, e), f);
      case Administer(x) => ClientNeutral(s, x); NeutralDead(s, Step(s, e), f);
    }
  }

  /** A dead family stays dead in every later run, so no access token of it is ever accepted again. */
  lemma {:induction false} DeadForever(s: State, es: seq<Event>, f: Family, h: Hash, active: bool)
    requires Dead(s, f)
    ensures var s' := Run(s, es);
      Dead(s', f) && (h in s'.tokens && s'.tokens[h].family == f ==> !AccessAccepted(s', h, active))
    decreases |es|
  {
    if es == [] {
      assert !Live(s, h, Access, f);
    } else {
      DeadStep(s, es[0], f);
      DeadForever(Step(s, es[0]), es[1..], f, h, active);
    }
  }

  lemma InsertRevives(s: State, r: RequestId, t: Ticket, h: Hash, kind: Kind)
    requires r in s.flight && s.flight[r] == (if kind == Access then Ready(t) else AccessOut(t)) && h !in s.issued
    ensures Live(Step(s, Resume(r, if kind == Access then InsertAccess(h) else InsertRefresh(h))), h, kind, t.family)
  {
  }

  lemma SweptRevives(s: State, r: RequestId, t: Ticket, h: Hash)
    requires r in s.flight && s.flight[r] == Swept(t) && h !in s.issued
    ensures Live(Run(s, [Resume(r, CheckActive(true)), Resume(r, InsertAccess(h))]), h, Access, t.family)
  {
    var a, b := Resume(r, CheckActive(true)), Resume(r, InsertAccess(h));
    assert [a, b] == [a] + [b];
    RunConcat(s, [a], [b]);
    RunOne(s, a);
    RunOne(Step(s, a), b);
    InsertRevives(Step(s, a), r, t, h, Access);
  }

  lemma ClaimedRevives(s: State, r: RequestId, t: Ticket, h: Hash)
    requires r in s.flight && s.flight[r] == Claimed(t) && h !in s.issued
    ensures var rest := [Resume(r, CheckActive(true)), Resume(r, InsertAccess(h))];
      Live(Run(s, [Resume(r, Sweep)] + rest), h, Access, t.family)
  {
    RunConcat(s, [Resume(r, Sweep)], [Resume(r, CheckActive(true)), Resume(r, InsertAccess(h))]);
    RunOne(s, Resume(r, Sweep));
    SweptRevives(Step(s, Resume(r, Sweep)), r, t, h);
  }

  /** A rotation in flight can still finish: the request that holds the family has a way to make a token of it live,
      even after a revocation or a detected replay. */
  lemma HolderRevives(s: State, r: RequestId, f: Family, h: Hash)
    requires Holds(s, r, f) && h !in s.issued
    ensures exists es, kind :: Live(Run(s, es), h, kind, f)
  {
    match s.flight[r] {
      case Claimed(t) => ClaimedRevives(s, r, t, h);
      case Swept(t) => SweptRevives(s, r, t, h);
      case Ready(t) =>
        RunOne(s, Resume(r, InsertAccess(h)));
        InsertRevives(s, r, t, h, Access);
      case AccessOut(t) =>
        RunOne(s, Resume(r, InsertRefresh(h)));
        InsertRevives(s, r, t, h, Refresh);
    }
  }

  lemma {:induction false} UnusedHash(used: set<Hash>) returns (above: Hash)
    ensures forall h :: h in used ==> h < above
    decreases |used|
  {
    above := 0;
    if used != {} {
      var h :| h in used;
      var rest := UnusedHash(used - {h});
      above := if h < rest then rest else h + 1;
      forall x | x in used ensures x < above { assert x == h || x in used - {h}; }
    }
  }

  /** No token of the family is live in any later run, however it goes on. */
  ghost predicate NeverLive(s: State, f: Family) {
    forall es, h, k :: !Live(Run(s, es), h, k, f)
  }

  /** A family without a live token never has one again exactly when no request holds it. */
  lemma NeverLiveExactly(s: State, f: Family)
    requires f in s.families && forall h, k :: !Live(s, h, k, f)
    ensures NeverLive(s, f) <==> Holders(s, f) == {}
  {
    if Holders(s, f) == {} {
      forall r ensures !Holds(s, r, f) { assert r !in Holders(s, f); }
      forall es, h, k ensures !Live(Run(s, es), h, k, f) { DeadForever(s, es, f, h, true); }
    } else {
      var r :| r in Holders(s, f);
      var h := UnusedHash(s.issued.Keys);
      HolderRevives(s, r, f, h);
    }
  }

  /** Revocation by the client that owns the token: no token of the family is live in any later run exactly when no
      rotation of the family is in flight. */
  lemma RevokeKills(s: State, c: ClientId, h: Hash)
    requires TokenInv(s) && c in s.clients && h in s.tokens && s.tokens[h].client == c
    ensures NeverLive(Step(s, Revoke(c, h)), s.tokens[h].family) <==> Holders(s, s.tokens[h].family) == {}
  {
    var f := s.tokens[h].family;
    var s' := Step(s, Revoke(c, h));
    assert TokenKnown(s, h);
    forall x, k ensures !Live(s', x, k, f) { assert TokenKnown(s, x); }
    assert Holders(s', f) == Holders(s, f) by { assert s'.flight == s.flight; }
    NeverLiveExactly(s', f);
  }

  /** Deleting a client takes all its tokens away; one of a family comes to life in some later run exactly when a
      rotation or an issue of the family is in flight at the deletion. */
  lemma DeletionKills(s: State, c: ClientId, f: Family)
    requires TokenInv(s) && c in s.clients && f in s.families && s.families[f].client == c
    ensures NeverLive(Step(s, Administer(DeleteClient(c))), f) <==> Holders(s, f) == {}
  {
    var s' := Step(s, Administer(DeleteClient(c)));
    forall x, k ensures !Live(s', x, k, f) { assert TokenKnown(s, x); }
    assert Holders(s', f) == Holders(s, f) by { assert s'.flight == s.flight; }
    NeverLiveExactly(s', f);
  }

  /** Revocation by any other client changes nothing at all. */
  lemma RevokeByOthers(s: State, c: ClientId, h: Hash)
    requires TokenInv(s) && h in s.tokens && s.tokens[h].client != c
    ensures Step(s, Revoke(c, h)) == s
  {
    assert TokenKnown(s, h);
    forall x | x in s.tokens && s.tokens[x].family == s.tokens[h].family ensures s.tokens[x].client != c {
      assert TokenKnown(s, x);
    }
    if c in s.clients { assert DoRevoke(s, c, h).tokens == s.tokens; }
  }

  predicate Mentions(e: Event, r: RequestId) {
    match e
    case Authorization(a) => a.r == r
    case Grant(g) => g.r == r
    case Resume(q, _) => q == r
    case Fail(q) => q == r
    case _ => false
  }

  ghost predicate ByOthers(es: seq<Event>, r: RequestId) {
    forall i :: 0 <= i < |es| ==> !Mentions(es[i], r)
  }

  /** A step of request r leaves every other request where it is. */
  predicate Elsewhere(s: State, s': State, r: RequestId, q: RequestId) {
    q != r && q in s.flight ==> q in s'.flight && s'.flight[q] == s.flight[q]
  }

  lemma AuthorizationElsewhere(s: State, a: AuthorizationStep, q: RequestId)
    ensures Elsewhere(s, AuthorizationNext(s, a), a.r, q)
  {
  }

  lemma RedeemElsewhere(s: State, r: RequestId, c: ClientId, h: Hash, verifier: string, redirect: string, q: RequestId)
    requires h in s.codes
    ensures Elsewhere(s, DoRedeem(s, r, c, h, verifier, redirect), r, q)
  {
  }

  lemma GrantElsewhere(s: State, g: GrantStep, q: RequestId)
    ensures Elsewhere(s, GrantNext(s, g), g.r, q)
  {
    match g {
      case RedeemCode(r, c, h, verifier, redirect) => if h in s.codes {
        RedeemElsewhere(s, r, c, h, verifier, redirect, q);
      }
      case Credentials(r, c, scope) =>
      case Claim(r, c, h) => assert Elsewhere(s, DoClaim(s, r, c, h), r, q);
    }
  }

  lemma ResumeElsewhere(s: State, r: RequestId, p: Phase, x: Statement, q: RequestId)
    ensures Elsewhere(s, ResumeNext(s, r, p, x), r, q)
  {
  }

  /** Steps of other requests leave a request where it is. */
  lemma OtherPhase(s: State, e: Event, r: RequestId)
    requires r in s.flight && !Mentions(e, r)
    ensures r in Step(s, e).flight && Step(s, e).flight[r] == s.flight[r]
  {
    match e {
      case Authorization(a) => AuthorizationElsewhere(s, a, r);
      case Grant(g) => GrantElsewhere(s, g, r);
      case Resume(q, x) => if q in s.flight { ResumeElsewhere(s, q, s.flight[q], x, r); }
      case _ =>
    }
  }

  lemma {:induction false} OthersLeave(s: State, es: seq<Event>, r: RequestId)
    requires ByOthers(es, r)
    ensures r in s.flight ==> r in Run(s, es).flight && Run(s, es).flight[r] == s.flight[r]
    decreases |es|
  {
    if es != [] {
      assert !Mentions(es[0], r);
      if r in s.flight { OtherPhase(s, es[0], r); }
      forall i | 0 <= i < |es[1..]| ensures !Mentions(es[1..][i], r) { assert es[1..][i] == es[i + 1]; }
      OthersLeave(Step(s, es[0]), es[1..], r);
    }
  }

  /** The token is a refresh token of this client, neither revoked nor expired. */
  predicate Rotatable(s: State, c: ClientId, h: Hash) {
    && h in s.tokens && s.tokens[h].kind == Refresh && s.tokens[h].client == c
    && !s.tokens[h].revoked && s.now < s.tokens[h].expires
  }

  /** The token is a revoked refresh token of this client. */
  predicate UsedUp(s: State, c: ClientId, h: Hash) {
    h in s.tokens && s.tokens[h].kind == Refresh && s.tokens[h].client == c && s.tokens[h].revoked
  }

  /** Presenting a refresh token that is not claimed and turns out used up when it is looked up: whatever other requests
      do between the three statements of the replay path, no token of the family is live in any later run exactly when
      no request holds the family when the revocation runs. */
  lemma ReplayKills(s: State, r: RequestId, c: ClientId, h: Hash, es1: seq<Event>, es2: seq<Event>)
    requires TokenInv(s) && r !in s.flight && c in s.clients && !Rotatable(s, c, h)
    requires ByOthers(es1, r) && ByOthers(es2, r) && UsedUp(Run(Step(s, Grant(Claim(r, c, h))), es1), c, h)
    ensures var looked := Run(Step(s, Grant(Claim(r, c, h))), es1);
      var before := Run(Step(looked, Resume(r, LookupReplay)), es2);
      NeverLive(Step(before, Resume(r, RevokeReplay)), looked.tokens[h].family) <==>
        Holders(before, looked.tokens[h].family) == {}
  {
    var s1 := Step(s, Grant(Claim(r, c, h)));
    var looked := Run(s1, es1);
    OthersLeave(s1, es1, r);
    StepKeeps(s, Grant(Claim(r, c, h)));
    RunKeeps(s1, es1);
    assert TokenKnown(looked, h);
    var found, f := Step(looked, Resume(r, LookupReplay)), looked.tokens[h].family;
    assert found.flight[r] == Replaying(f) && f in found.families;
    OthersLeave(found, es2, r);
    FamilyStaysRun(found, es2, f);
    ReplayStepKills(Run(found, es2), r, f);
  }

  lemma ReplayStepKills(s: State, r: RequestId, f: Family)
    requires r in s.flight && s.flight[r] == Replaying(f) && f in s.families
    ensures NeverLive(Step(s, Resume(r, RevokeReplay)), f) <==> Holders(s, f) == {}
  {
    var s' := Step(s, Resume(r, RevokeReplay));
    forall x, k ensures !Live(s', x, k, f) {}
    forall q ensures Holds(s', q, f) <==> Holds(s, q, f) {}
    assert Holders(s', f) == Holders(s, f);
    NeverLiveExactly(s', f);
  }

  lemma RunOne(s: State, e: Event)
    ensures Run(s, [e]) == Step(s, e)
  {
    assert [e][1..] == [];
  }

  /** The record of a family never changes once made: rotation cannot widen a scope. */
  lemma FamilyStays(s: State, e: Event, f: Family)
    requires f in s.families
    ensures f in Step(s, e).families && Step(s, e).families[f] == s.families[f]
  {
    match e {
      case Authorization(a) => AuthorizationNeutral(s, a);
      case Grant(g) => GrantFamilies(s, g);
      case Resume(r, x) => if r in s.flight { ResumeFamilies(s, r, s.flight[r], x, f); }
      case _ =>
    }
  }

  lemma GrantFamilies(s: State, g: GrantStep)
    ensures GrantNext(s, g).families == s.families && GrantNext(s, g).issued == s.issued
  {
    match g {
      case RedeemCode(r, c, h, verifier, redirect) => if h in s.codes { RedeemNeutral(s, r, c, h, verifier, redirect); }
      case Credentials(r, c, scope) =>
      case Claim(r, c, h) =>
    }
  }

  lemma ResumeFamilies(s: State, r: RequestId, p: Phase, x: Statement, f: Family)
    requires f in s.families
    ensures f in ResumeNext(s, r, p, x).families && ResumeNext(s, r, p, x).families[f] == s.families[f]
  {
  }

  lemma {:induction false} FamilyStaysRun(s: State, es: seq<Event>, f: Family)
    requires f in s.families
    ensures f in Run(s, es).families && Run(s, es).families[f] == s.families[f]
    decreases |es|
  {
    if es != [] {
      FamilyStays(s, es[0], f);
      FamilyStaysRun(Step(s, es[0]), es[1..], f);
    }
  }

  // ---- what was issued stays on record ------------------------------------------------------------

  lemma ResumeIssued(s: State, r: RequestId, p: Phase, x: Statement, h: Hash)
    requires h in s.issued
    ensures h in ResumeNext(s, r, p, x).issued && ResumeNext(s, r, p, x).issued[h] == s.issued[h]
  {
  }

  lemma IssuedStays(s: State, e: Event, h: Hash)
    requires h in s.issued
    ensures h in Step(s, e).issued && Step(s, e).issued[h] == s.issued[h]
  {
    match e {
      case Authorization(a) => AuthorizationNeutral(s, a);
      case Grant(g) => GrantFamilies(s, g);
      case Resume(r, x) => if r in s.flight { ResumeIssued(s, r, s.flight[r], x, h); }
      case _ =>
    }
  }

  lemma {:induction false} IssuedStaysRun(s: State, es: seq<Event>, h: Hash)
    requires h in s.issued
    ensures h in Run(s, es).issued && Run(s, es).issued[h] == s.issued[h]
    decreases |es|
  {
    if es != [] {
      IssuedStays(s, es[0], h);
      IssuedStaysRun(Step(s, es[0]), es[1..], h);
    }
  }
}
