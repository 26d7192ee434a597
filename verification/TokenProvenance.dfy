/** Where tokens come from, in every run: consent, the one use of each code, and its PKCE binding. */
module TokenProvenance {
  import opened Common
  import opened Scopes
  import opened TokenMachine
  import opened TokenInvariants
  import opened TokenFamilies

  /** At some earlier step the user agreed, for this client, to every word of the scope. */
  ghost predicate Consented(log: set<Consent>, u: User, c: ClientId, scope: string) {
    exists k :: k in log && k.user == u && k.client == c && Words(scope) <= Words(k.scope)
  }

  /** What a redeemed code or an accepted client secret entitles to. */
  ghost predicate Entitled(s: State, c: ClientId, who: Option<User>, scope: string, origin: Origin) {
    match origin
    case ByCode(h, redirect, verifier) =>
      && h in s.codesEver && h !in s.codes
      && CodeMatches(s.codesEver[h], c, redirect, verifier)
      && who == Some(s.codesEver[h].user) && scope == s.codesEver[h].scope
    case ByCredentials => who == None
  }

  ghost predicate CodeKnown(s: State, h: Hash) {
    && (h in s.codesEver ==> Consented(s.consented, s.codesEver[h].user, s.codesEver[h].client, s.codesEver[h].scope))
    && (h in s.codes ==> h in s.codesEver && s.codesEver[h] == s.codes[h])
  }

  ghost predicate ConsentKnown(s: State, k: ConsentKey) {
    k in s.consents ==> Consent(k.user, k.client, s.consents[k]) in s.consented
  }

  ghost predicate PhaseKnown(s: State, r: RequestId) {
    r in s.flight ==>
      && (s.flight[r].MayIssue? ==>
            Consented(s.consented, s.flight[r].user, s.flight[r].client, s.flight[r].request.scope))
      && (s.flight[r].Redeemed? ==>
            Entitled(s, s.flight[r].caller, s.flight[r].who, s.flight[r].scope, s.flight[r].origin))
  }

  ghost predicate FamilyEntitled(s: State, f: Family) {
    f in s.families ==> Entitled(s, s.families[f].client, s.families[f].user, s.families[f].scope, s.families[f].origin)
  }

  predicate RedeemedFrom(s: State, r: RequestId, h: Hash) {
    r in s.flight && s.flight[r].Redeemed? && s.flight[r].origin.ByCode? && s.flight[r].origin.code == h
  }

  predicate BornFrom(s: State, f: Family, h: Hash) {
    f in s.families && s.families[f].origin.ByCode? && s.families[f].origin.code == h
  }

  /** A code serves one request or one family, never two. */
  ghost predicate CodeOnce(s: State, h: Hash) {
    && (forall r1, r2 :: RedeemedFrom(s, r1, h) && RedeemedFrom(s, r2, h) ==> r1 == r2)
    && (forall f1, f2 :: BornFrom(s, f1, h) && BornFrom(s, f2, h) ==> f1 == f2)
    && (forall r, f :: RedeemedFrom(s, r, h) ==> !BornFrom(s, f, h))
  }

  ghost predicate OriginInv(s: State) {
    && (forall h :: CodeKnown(s, h))
    && (forall k :: ConsentKnown(s, k))
    && (forall r :: PhaseKnown(s, r))
    && (forall f :: FamilyEntitled(s, f))
    && (forall h :: CodeOnce(s, h))
  }

  // ---- steps that neither write consents or codes nor start a request with an entitlement --------

  predicate StillPhase(s: State, s': State, r: RequestId) {
    r in s'.flight && (s'.flight[r].MayIssue? || s'.flight[r].Redeemed?) ==>
      r in s.flight && s'.flight[r] == s.flight[r]
  }

  ghost predicate Still(s: State, s': State) {
    && s'.codesEver == s.codesEver && s'.consented == s.consented && s'.families == s.families
    && (forall k :: k in s'.consents ==> k in s.consents && s'.consents[k] == s.consents[k])
    && (forall h :: h in s'.codes ==> h in s.codes && s'.codes[h] == s.codes[h])
    && (forall r :: StillPhase(s, s', r))
  }

  lemma StillKeeps(s: State, s': State)
    requires OriginInv(s) && Still(s, s')
    ensures OriginInv(s')
  {
    forall h ensures CodeKnown(s', h) { assert CodeKnown(s, h); }
    forall k ensures ConsentKnown(s', k) { assert ConsentKnown(s, k); }
    forall r ensures PhaseKnown(s', r) { assert PhaseKnown(s, r) && StillPhase(s, s', r); }
    forall f ensures FamilyEntitled(s', f) { assert FamilyEntitled(s, f); }
    forall h ensures CodeOnce(s', h) {
      assert CodeOnce(s, h);
      forall r ensures RedeemedFrom(s', r, h) ==> RedeemedFrom(s, r, h) { assert StillPhase(s, s', r); }
      forall f ensures BornFrom(s', f, h) ==> BornFrom(s, f, h) {}
    }
  }

  lemma MissStill(s: State, r: RequestId, c: ClientId, h: Hash)
    ensures Still(s, DoClaim(s, r, c, h))
  {
  }

  lemma SweepStill(s: State, r: RequestId, t: Ticket)
    ensures Still(s, DoSweep(s, r, t))
  {
  }

  lemma LandStill(s: State, r: RequestId)
    ensures Still(s, Land(s, r))
  {
  }

  lemma InsertStill(s: State, r: RequestId, h: Hash, t: Ticket, kind: Kind)
    ensures Still(s, DoInsert(s, r, h, t, kind))
  {
  }

  lemma LookupStill(s: State, r: RequestId, p: Phase)
    requires p.Missed?
    ensures Still(s, DoLookupReplay(s, r, p))
  {
  }

  lemma RevokeStill(s: State, c: ClientId, h: Hash)
    ensures Still(s, DoRevoke(s, c, h))
  {
  }

  lemma PurgeStill(s: State)
    ensures Still(s, DoPurge(s))
  {
  }

  lemma ClientStill(s: State, x: ClientStep)
    ensures Still(s, ClientNext(s, x))
  {
  }

  lemma CheckStill(s: State, r: RequestId, t: Ticket, active: bool)
    ensures Still(s, DoCheck(s, r, t, active))
  {
  }

  lemma ReplayStill(s: State, r: RequestId, f: Family)
    ensures Still(s, DoRevokeReplay(s, r, f))
  {
  }

  lemma ResumeStill(s: State, r: RequestId, p: Phase, x: Statement)
    requires !x.MintFamily?
    ensures Still(s, ResumeNext(s, r, p, x))
  {
    match x {
      case Sweep => if p.Claimed? { SweepStill(s, r, p.ticket); }
      case CheckActive(active) => if p.Swept? { CheckStill(s, r, p.ticket, active); }
      case InsertAccess(h) => if p.Ready? { InsertStill(s, r, h, p.ticket, Access); }
      case InsertRefresh(h) => if p.AccessOut? { InsertStill(s, r, h, p.ticket, Refresh); }
      case LookupReplay => if p.Missed? { LookupStill(s, r, p); }
      case RevokeReplay => if p.Replaying? { ReplayStill(s, r, p.target); }
    }
  }

  // ---- steps that do ------------------------------------------------------------------------------

  /** Entering a phase that carries no code: the rest of the invariant is untouched. */
  lemma EnterKeeps(s: State, r: RequestId, p: Phase)
    requires OriginInv(s) && r !in s.flight
    requires p.MayIssue? ==> Consented(s.consented, p.user, p.client, p.request.scope)
    requires p.MayIssue? || (p.Redeemed? && p.origin.ByCredentials? && p.who == None)
    ensures OriginInv(s.(flight := s.flight[r := p]))
  {
    var s' := s.(flight := s.flight[r := p]);
    forall h ensures CodeKnown(s', h) { assert CodeKnown(s, h); }
    forall k ensures ConsentKnown(s', k) { assert ConsentKnown(s, k); }
    forall q ensures PhaseKnown(s', q) { assert PhaseKnown(s, q); }
    forall f ensures FamilyEntitled(s', f) { assert FamilyEntitled(s, f); }
    forall h ensures CodeOnce(s', h) {
      assert CodeOnce(s, h);
      forall q ensures RedeemedFrom(s', q, h) ==> RedeemedFrom(s, q, h) {}
      forall f ensures BornFrom(s', f, h) ==> BornFrom(s, f, h) {}
    }
  }

  lemma LogKeeps(s: State, u: User, c: ClientId, scope: string)
    requires OriginInv(s)
    ensures OriginInv(s.(consents := s.consents[ConsentKey(u, c) := scope],
                         consented := s.consented + {Consent(u, c, scope)}))
  {
    var s' := s.(consents := s.consents[ConsentKey(u, c) := scope], consented := s.consented + {Consent(u, c, scope)});
    forall u', c', scope' ensures Consented(s.consented, u', c', scope') ==> Consented(s'.consented, u', c', scope') {
      if Consented(s.consented, u', c', scope') {
        var k :| k in s.consented && k.user == u' && k.client == c' && Words(scope') <= Words(k.scope);
        assert k in s'.consented;
      }
    }
    forall h ensures CodeKnown(s', h) { assert CodeKnown(s, h); }
    forall k ensures ConsentKnown(s', k) { assert ConsentKnown(s, k); }
    forall q ensures PhaseKnown(s', q) { assert PhaseKnown(s, q); }
    forall f ensures FamilyEntitled(s', f) { assert FamilyEntitled(s, f); }
    forall h ensures CodeOnce(s', h) {
      assert CodeOnce(s, h);
      forall q ensures RedeemedFrom(s', q, h) ==> RedeemedFrom(s, q, h) {}
      forall f ensures BornFrom(s', f, h) ==> BornFrom(s, f, h) {}
    }
  }

  lemma AuthorizationKeeps(s: State, a: AuthorizationStep)
    requires OriginInv(s)
    ensures OriginInv(AuthorizationNext(s, a))
  {
    match a {
      case Authorize(r, u, c, q, member, prompt) =>
        if AuthorizationNext(s, a) != s {
          assert ConsentKnown(s, ConsentKey(u, c));
          var k := Consent(u, c, s.consents[ConsentKey(u, c)]);
          assert k in s.consented && Words(q.scope) <= Words(k.scope);
          EnterKeeps(s, r, MayIssue(u, c, q));
        }
      case Approve(r, u, c, q, member) =>
        if r !in s.flight {
          LogKeeps(s, u, c, q.scope);
          var s1 := s.(consents := s.consents[ConsentKey(u, c) := q.scope],
                       consented := s.consented + {Consent(u, c, q.scope)});
          assert Consent(u, c, q.scope) in s1.consented;
          EnterKeeps(s1, r, MayIssue(u, c, q));
          assert DoApprove(s, r, u, c, q) == s1.(flight := s.flight[r := MayIssue(u, c, q)]);
        }
      case IssueCode(r, h) =>
        if r in s.flight && s.flight[r].MayIssue? && h !in s.codesEver { IssueKeeps(s, r, h, s.flight[r]); }
    }
  }

  lemma IssueKeeps(s: State, r: RequestId, h: Hash, p: Phase)
    requires OriginInv(s) && r in s.flight && p == s.flight[r] && p.MayIssue? && h !in s.codesEver
    ensures OriginInv(DoIssueCode(s, r, h, p))
  {
    var s' := DoIssueCode(s, r, h, p);
    assert PhaseKnown(s, r) && CodeKnown(s, h);
    forall x ensures CodeKnown(s', x) { assert CodeKnown(s, x); }
    forall k ensures ConsentKnown(s', k) { assert ConsentKnown(s, k); }
    forall q ensures PhaseKnown(s', q) { assert PhaseKnown(s, q); }
    forall f ensures FamilyEntitled(s', f) { assert FamilyEntitled(s, f); }
    forall x ensures CodeOnce(s', x) {
      assert CodeOnce(s, x);
      forall q ensures RedeemedFrom(s', q, x) ==> RedeemedFrom(s, q, x) {}
      forall f ensures BornFrom(s', f, x) ==> BornFrom(s, f, x) {}
    }
  }

  lemma RedeemKeeps(s: State, r: RequestId, c: ClientId, h: Hash, verifier: string, redirect: string)
    requires OriginInv(s) && h in s.codes && r !in s.flight
    ensures OriginInv(DoRedeem(s, r, c, h, verifier, redirect))
  {
    var s' := DoRedeem(s, r, c, h, verifier, redirect);
    assert CodeKnown(s, h);
    forall x ensures CodeKnown(s', x) { assert CodeKnown(s, x); }
    forall k ensures ConsentKnown(s', k) { assert ConsentKnown(s, k); }
    forall q ensures PhaseKnown(s', q) { assert PhaseKnown(s, q); }
    forall f ensures FamilyEntitled(s', f) { assert FamilyEntitled(s, f); }
    forall x ensures CodeOnce(s', x) {
      assert CodeOnce(s, x);
      forall q ensures RedeemedFrom(s', q, x) ==> RedeemedFrom(s, q, x) || (q == r && x == h) {}
      forall q ensures !RedeemedFrom(s, q, h) { assert PhaseKnown(s, q); }
      forall f ensures !BornFrom(s, f, h) { assert FamilyEntitled(s, f); }
      forall f ensures BornFrom(s', f, x) ==> BornFrom(s, f, x) {}
    }
  }

  lemma MintOrigin(s: State, r: RequestId, g: Family, p: Phase)
    requires OriginInv(s) && r in s.flight && p == s.flight[r] && p.Redeemed? && g !in s.families
    ensures OriginInv(DoMint(s, r, g, p))
  {
    var s' := DoMint(s, r, g, p);
    assert PhaseKnown(s, r);
    forall x ensures CodeKnown(s', x) { assert CodeKnown(s, x); }
    forall k ensures ConsentKnown(s', k) { assert ConsentKnown(s, k); }
    forall q ensures PhaseKnown(s', q) { assert PhaseKnown(s, q); }
    forall f ensures FamilyEntitled(s', f) { assert FamilyEntitled(s, f); }
    forall x ensures CodeOnce(s', x) {
      assert CodeOnce(s, x);
      forall q ensures RedeemedFrom(s', q, x) ==> RedeemedFrom(s, q, x) && q != r {}
      forall f ensures BornFrom(s', f, x) ==> BornFrom(s, f, x) || (f == g && RedeemedFrom(s, r, x)) {}
    }
  }

  lemma OriginResume(s: State, r: RequestId, p: Phase, x: Statement)
    requires OriginInv(s) && r in s.flight && p == s.flight[r]
    ensures OriginInv(ResumeNext(s, r, p, x))
  {
    match x {
      case MintFamily(g) => if p.Redeemed? && g !in s.families { MintOrigin(s, r, g, p); }
      case _ => ResumeStill(s, r, p, x); StillKeeps(s, ResumeNext(s, r, p, x));
    }
  }

  lemma OriginGrant(s: State, g: GrantStep)
    requires OriginInv(s)
    ensures OriginInv(GrantNext(s, g))
  {
    match g {
      case RedeemCode(r, c, h, verifier, redirect) =>
        if h in s.codes && r !in s.flight { RedeemKeeps(s, r, c, h, verifier, redirect); }
      case Credentials(r, c, scope) =>
        if r !in s.flight {
          EnterKeeps(s, r, Redeemed(c, None, scope, ByCredentials, false));
        }
      case Claim(r, c, h) => MissStill(s, r, c, h); StillKeeps(s, DoClaim(s, r, c, h));
    }
  }

  lemma OriginStep(s: State, e: Event)
    requires OriginInv(s)
    ensures OriginInv(Step(s, e))
  {
    match e {
      case Tick(d) => StillKeeps(s, Step(s, e));
      case Authorization(a) => AuthorizationKeeps(s, a);
      case Grant(g) => OriginGrant(s, g);
      case Resume(r, x) => if r in s.flight { OriginResume(s, r, s.flight[r], x); }
      case Fail(r) => LandStill(s, r); StillKeeps(s, Land(s, r));
      case Revoke(c, h) => RevokeStill(s, c, h); StillKeeps(s, DoRevoke(s, c, h));
      case Purge => PurgeStill(s); StillKeeps(s, DoPurge(s));
      case Administer(x) => ClientStill(s, x); StillKeeps(s, ClientNext(s, x));
    }
  }

  lemma {:induction false} OriginRun(s: State, es: seq<Event>)
    requires OriginInv(s)
    ensures OriginInv(Run(s, es))
    decreases |es|
  {
    if es != [] {
      OriginStep(s, es[0]);
      OriginRun(Step(s, es[0]), es[1..]);
    }
  }

  /** Every token row of a reachable state agrees with the unchanging record of its family. A user's
      token carries a scope the user consented to for that client at an earlier step, and a family
      that began with a code was started by the code's own client, with the code's own redirect URI
      and a verifier whose digest is the code's challenge. */
  lemma TokenProvenance(clients: map<ClientId, Client>, es: seq<Event>, h: Hash)
    requires h in Run(Init(clients), es).tokens
    ensures var s := Run(Init(clients), es); var k := s.tokens[h];
      && k.family in s.families
      && s.families[k.family] == FamilyRecord(k.client, k.client.tenant, k.user, k.scope,
        s.families[k.family].origin)
      && k.tenant == k.client.tenant
      && (k.user.Some? ==> Consented(s.consented, k.user.value, k.client, k.scope))
      && match s.families[k.family].origin {
           case ByCode(c, redirect, verifier) =>
             c in s.codesEver && CodeMatches(s.codesEver[c], k.client, redirect, verifier)
             && k.user == Some(s.codesEver[c].user) && k.scope == s.codesEver[c].scope
           case ByCredentials => k.user == None
         }
  {
    ReachableKeeps(clients, es);
    OriginRun(Init(clients), es);
    var s := Run(Init(clients), es);
    var k := s.tokens[h];
    assert TokenKnown(s, h) && FamilyKnown(s, k.family) && FamilyEntitled(s, k.family);
    match s.families[k.family].origin {
      case ByCode(c, redirect, verifier) => assert CodeKnown(s, c);
      case ByCredentials =>
    }
  }

  /** A code starts at most one family. */
  lemma CodeStartsOneFamily(clients: map<ClientId, Client>, es: seq<Event>, h: Hash, f1: Family, f2: Family)
    requires BornFrom(Run(Init(clients), es), f1, h) && BornFrom(Run(Init(clients), es), f2, h)
    ensures f1 == f2
  {
    OriginRun(Init(clients), es);
    assert CodeOnce(Run(Init(clients), es), h);
  }

  // ---- refresh tokens need offline_access -----------------------------------------------------------

  /** Refresh tokens, and requests about to insert one, belong to users whose scope has the word. */
  predicate OfflineToken(s: State, h: Hash) {
    h in s.tokens && s.tokens[h].kind == Refresh ==>
      s.tokens[h].user.Some? && HasWord(s.tokens[h].scope, "offline_access")
  }

  predicate OfflinePhase(s: State, r: RequestId) {
    r in s.flight && s.flight[r].AccessOut? ==> WantsRefresh(s.flight[r].ticket)
  }

  ghost predicate Offline(s: State) {
    (forall h :: OfflineToken(s, h)) && (forall r :: OfflinePhase(s, r))
  }

  lemma NeutralOffline(s: State, s': State)
    requires Offline(s) && Neutral(s, s') && forall r :: r in s'.flight && s'.flight[r].AccessOut? ==>
      r in s.flight && s'.flight[r] == s.flight[r]
    ensures Offline(s')
  {
    forall h ensures OfflineToken(s', h) { assert OfflineToken(s, h) && NeutralRow(s, s', h); }
    forall r ensures OfflinePhase(s', r) { assert OfflinePhase(s, r); }
  }

  lemma SameTokensOffline(s: State, s': State)
    requires Offline(s) && s'.tokens == s.tokens
    requires forall r :: r in s'.flight && s'.flight[r].AccessOut? ==> r in s.flight && s'.flight[r] == s.flight[r]
    ensures Offline(s')
  {
    forall h ensures OfflineToken(s', h) { assert OfflineToken(s, h); }
    forall r ensures OfflinePhase(s', r) { assert OfflinePhase(s, r); }
  }

  lemma ClaimOffline(s: State, r: RequestId, c: ClientId, h: Hash)
    requires Offline(s)
    ensures Offline(DoClaim(s, r, c, h))
  {
    var s' := DoClaim(s, r, c, h);
    forall x ensures OfflineToken(s', x) { assert OfflineToken(s, x); }
    forall q ensures OfflinePhase(s', q) { assert OfflinePhase(s, q); }
  }

  lemma GrantOffline(s: State, g: GrantStep)
    requires Offline(s)
    ensures Offline(GrantNext(s, g))
  {
    match g {
      case RedeemCode(r, c, h, verifier, redirect) =>
        if h in s.codes {
          RedeemNeutral(s, r, c, h, verifier, redirect);
          NeutralOffline(s, DoRedeem(s, r, c, h, verifier, redirect));
        }
      case Credentials(r, c, scope) => SameTokensOffline(s, GrantNext(s, g));
      case Claim(r, c, h) => ClaimOffline(s, r, c, h);
    }
  }

  lemma InsertOffline(s: State, r: RequestId, h: Hash, t: Ticket, kind: Kind)
    requires Offline(s) && Inserting(s, r, t, kind)
    ensures Offline(DoInsert(s, r, h, t, kind))
  {
    var s' := DoInsert(s, r, h, t, kind);
    assert OfflinePhase(s, r);
    forall x ensures OfflineToken(s', x) { assert OfflineToken(s, x); }
    forall q ensures OfflinePhase(s', q) { assert OfflinePhase(s, q); }
  }

  lemma MintOffline(s: State, r: RequestId, g: Family, p: Phase)
    requires Offline(s) && p.Redeemed?
    ensures Offline(DoMint(s, r, g, p))
  {
    var s' := DoMint(s, r, g, p);
    forall h ensures OfflineToken(s', h) { assert OfflineToken(s, h); }
    forall q ensures OfflinePhase(s', q) { assert OfflinePhase(s, q); }
  }

  lemma SweepOffline(s: State, r: RequestId, t: Ticket)
    requires Offline(s)
    ensures Offline(DoSweep(s, r, t))
  {
    var s' := DoSweep(s, r, t);
    forall h ensures OfflineToken(s', h) { assert OfflineToken(s, h); }
    forall q ensures OfflinePhase(s', q) { assert OfflinePhase(s, q); }
  }

  lemma LandOffline(s: State, r: RequestId)
    requires Offline(s)
    ensures Offline(Land(s, r))
  {
    LandNeutral(s, r);
    NeutralOffline(s, Land(s, r));
  }

  lemma ResumeOffline(s: State, r: RequestId, p: Phase, x: Statement)
    requires Offline(s) && r in s.flight && p == s.flight[r]
    ensures Offline(ResumeNext(s, r, p, x))
  {
    match x {
      case MintFamily(g) => if p.Redeemed? { MintOffline(s, r, g, p); }
      case Sweep => if p.Claimed? { SweepOffline(s, r, p.ticket); }
      case CheckActive(active) =>
        if p.Swept? { CheckNeutral(s, r, p.ticket, active); NeutralOffline(s, DoCheck(s, r, p.ticket, active)); }
      case InsertAccess(h) => if p.Ready? { InsertOffline(s, r, h, p.ticket, Access); }
      case InsertRefresh(h) => if p.AccessOut? { InsertOffline(s, r, h, p.ticket, Refresh); }
      case LookupReplay => if p.Missed? { LookupNeutral(s, r, p); NeutralOffline(s, DoLookupReplay(s, r, p)); }
      case RevokeReplay => if p.Replaying? {
        ReplayNeutral(s, r, p.target); NeutralOffline(s, DoRevokeReplay(s, r, p.target));
      }
    }
  }

  lemma AuthorizationOffline(s: State, a: AuthorizationStep)
    requires Offline(s)
    ensures Offline(AuthorizationNext(s, a))
  {
    AuthorizationNeutral(s, a);
    NeutralOffline(s, AuthorizationNext(s, a));
  }

  lemma OfflineStep(s: State, e: Event)
    requires Offline(s)
    ensures Offline(Step(s, e))
  {
    match e {
      case Tick(d) => NeutralOffline(s, Step(s, e));
      case Authorization(a) => AuthorizationOffline(s, a);
      case Grant(g) => GrantOffline(s, g);
      case Resume(r, x) => if r in s.flight { ResumeOffline(s, r, s.flight[r], x); }
      case Fail(r) => LandOffline(s, r);
      case Revoke(c, h) => RevokeNeutral(s, c, h); NeutralOffline(s, DoRevoke(s, c, h));
      case Purge => PurgeNeutral(s); NeutralOffline(s, DoPurge(s));
      case Administer(x) => ClientNeutral(s, x); NeutralOffline(s, ClientNext(s, x));
    }
  }

  lemma {:induction false} OfflineRun(s: State, es: seq<Event>)
    requires Offline(s)
    ensures Offline(Run(s, es))
    decreases |es|
  {
    if es != [] {
      OfflineStep(s, es[0]);
      OfflineRun(Step(s, es[0]), es[1..]);
    }
  }

  /** A refresh token exists only where its user consented to offline_access for its client. */
  lemma RefreshNeedsConsent(clients: map<ClientId, Client>, es: seq<Event>, h: Hash)
    requires h in Run(Init(clients), es).tokens && Run(Init(clients), es).tokens[h].kind == Refresh
    ensures var s := Run(Init(clients), es); var k := s.tokens[h];
      k.user.Some? && exists a :: a in s.consented && a.user == k.user.value && a.client == k.client
                                  && "offline_access" in Words(a.scope)
  {
    OfflineRun(Init(clients), es);
    TokenProvenance(clients, es, h);
    var s := Run(Init(clients), es);
    var k := s.tokens[h];
    assert OfflineToken(s, h);
    HasWordIsField(k.scope, "offline_access");
    var a :| a in s.consented && a.user == k.user.value && a.client == k.client && Words(k.scope) <= Words(a.scope);
    assert "offline_access" in Words(a.scope);
  }

  // ---- presenting a code ----------------------------------------------------------------------------

  /** The code is gone for good and no request or family came from it. */
  ghost predicate Burnt(s: State, h: Hash) {
    && h in s.codesEver && h !in s.codes
    && (forall r :: !RedeemedFrom(s, r, h)) && (forall f :: !BornFrom(s, f, h))
  }

  /** Presenting an unexpired code with a well-formed verifier removes it at once. If the client, the
      redirect URI or the verifier do not match it, it is burnt without starting anything. */
  lemma PresentingBurns(s: State, r: RequestId, c: ClientId, h: Hash, verifier: string, redirect: string)
    requires OriginInv(s) && r !in s.flight && c in s.clients && PkceShape(verifier)
    requires h in s.codes && s.codes[h].expires > s.now
    ensures var s' := Step(s, Grant(RedeemCode(r, c, h, verifier, redirect)));
      && h !in s'.codes && h in s'.codesEver
      && (r in s'.flight <==> CodeMatches(s.codes[h], c, redirect, verifier))
      && (!CodeMatches(s.codes[h], c, redirect, verifier) ==> Burnt(s', h))
  {
    var s' := Step(s, Grant(RedeemCode(r, c, h, verifier, redirect)));
    assert s' == DoRedeem(s, r, c, h, verifier, redirect);
    assert CodeKnown(s, h);
    forall q ensures !RedeemedFrom(s, q, h) && (q == r || !RedeemedFrom(s', q, h)) { assert PhaseKnown(s, q); }
    forall f ensures !BornFrom(s', f, h) { assert FamilyEntitled(s, f); }
  }

  /** A burnt code never yields a family in any later run. */
  lemma {:induction false} BurntForever(s: State, es: seq<Event>, h: Hash)
    requires Burnt(s, h)
    ensures Burnt(Run(s, es), h)
    decreases |es|
  {
    if es != [] {
      BurntStep(s, es[0], h);
      BurntForever(Step(s, es[0]), es[1..], h);
    }
  }

  lemma StillBurnt(s: State, s': State, h: Hash)
    requires Burnt(s, h) && Still(s, s')
    ensures Burnt(s', h)
  {
    forall r ensures !RedeemedFrom(s', r, h) { assert StillPhase(s, s', r) && !RedeemedFrom(s, r, h); }
    forall f ensures !BornFrom(s', f, h) { assert !BornFrom(s, f, h); }
  }

  lemma MintBurnt(s: State, r: RequestId, g: Family, p: Phase, h: Hash)
    requires Burnt(s, h) && r in s.flight && p == s.flight[r] && p.Redeemed?
    ensures Burnt(DoMint(s, r, g, p), h)
  {
    var s' := DoMint(s, r, g, p);
    assert !RedeemedFrom(s, r, h);
    forall q ensures !RedeemedFrom(s', q, h) { assert !RedeemedFrom(s, q, h); }
    forall f ensures !BornFrom(s', f, h) { assert !BornFrom(s, f, h); }
  }

  lemma IssueBurnt(s: State, r: RequestId, x: Hash, p: Phase, h: Hash)
    requires Burnt(s, h) && p.MayIssue? && x !in s.codesEver
    ensures Burnt(DoIssueCode(s, r, x, p), h)
  {
    var s' := DoIssueCode(s, r, x, p);
    forall q ensures !RedeemedFrom(s', q, h) { assert !RedeemedFrom(s, q, h); }
    forall f ensures !BornFrom(s', f, h) { assert !BornFrom(s, f, h); }
  }

  lemma EnterBurnt(s: State, s': State, r: RequestId, h: Hash)
    requires Burnt(s, h) && s'.codesEver == s.codesEver && s'.families == s.families
    requires forall x :: x in s'.codes ==> x in s.codes
    requires forall q :: q in s'.flight && q != r ==> q in s.flight && s'.flight[q] == s.flight[q]
    requires !RedeemedFrom(s', r, h)
    ensures Burnt(s', h)
  {
    forall q ensures !RedeemedFrom(s', q, h) { assert !RedeemedFrom(s, q, h); }
    forall f ensures !BornFrom(s', f, h) { assert !BornFrom(s, f, h); }
  }

  lemma ResumeBurnt(s: State, r: RequestId, p: Phase, x: Statement, h: Hash)
    requires Burnt(s, h) && r in s.flight && p == s.flight[r]
    ensures Burnt(ResumeNext(s, r, p, x), h)
  {
    match x {
      case MintFamily(g) => if p.Redeemed? && g !in s.families { MintBurnt(s, r, g, p, h); }
      case _ => ResumeStill(s, r, p, x); StillBurnt(s, ResumeNext(s, r, p, x), h);
    }
  }

  lemma AuthorizationBurnt(s: State, a: AuthorizationStep, h: Hash)
    requires Burnt(s, h)
    ensures Burnt(AuthorizationNext(s, a), h)
  {
    match a {
      case Authorize(r, u, c, q, member, prompt) =>
        assert !RedeemedFrom(s, r, h);
        EnterBurnt(s, AuthorizationNext(s, a), r, h);
      case Approve(r, u, c, q, member) => EnterBurnt(s, DoApprove(s, r, u, c, q), r, h);
      case IssueCode(r, x) =>
        if r in s.flight && s.flight[r].MayIssue? && x !in s.codesEver { IssueBurnt(s, r, x, s.flight[r], h); }
    }
  }

  lemma GrantBurnt(s: State, g: GrantStep, h: Hash)
    requires Burnt(s, h)
    ensures Burnt(GrantNext(s, g), h)
  {
    match g {
      case RedeemCode(r, c, x, verifier, redirect) =>
        assert !RedeemedFrom(s, r, h);
        if x in s.codes { EnterBurnt(s, DoRedeem(s, r, c, x, verifier, redirect), r, h); }
      case Credentials(r, c, scope) =>
        assert !RedeemedFrom(s, r, h);
        EnterBurnt(s, GrantNext(s, g), r, h);
      case Claim(r, c, x) => MissStill(s, r, c, x); StillBurnt(s, DoClaim(s, r, c, x), h);
    }
  }

  lemma BurntStep(s: State, e: Event, h: Hash)
    requires Burnt(s, h)
    ensures Burnt(Step(s, e), h)
  {
    match e {
      case Authorization(a) => AuthorizationBurnt(s, a, h);
      case Grant(g) => GrantBurnt(s, g, h);
      case Resume(r, x) => if r in s.flight { ResumeBurnt(s, r, s.flight[r], x, h); }
      case Fail(r) => LandStill(s, r); StillBurnt(s, Land(s, r), h);
      case Revoke(c, x) => RevokeStill(s, c, x); StillBurnt(s, DoRevoke(s, c, x), h);
      case Purge => PurgeStill(s); StillBurnt(s, DoPurge(s), h);
      case Administer(x) => ClientStill(s, x); StillBurnt(s, ClientNext(s, x), h);
      case Tick(d) => StillBurnt(s, Step(s, e), h);
    }
  }
}
