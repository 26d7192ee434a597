/** How long codes and tokens work, in every run. */
module TokenLifetimes {
  import opened TokenMachine
  import opened TokenInvariants
  import opened TokenFamilies
  import opened TokenProvenance

  /** An hour for an access token, thirty days for a refresh token. */
  function Ttl(kind: Kind): nat {
    if kind == Access then 3_600 else 2_592_000
  }

  /** The row expires no later than its lifetime from now. */
  predicate TokenDue(s: State, h: Hash) {
    h in s.tokens ==> s.tokens[h].expires <= s.now + Ttl(s.tokens[h].kind)
  }

  predicate CodeDue(s: State, h: Hash) {
    h in s.codes ==> s.codes[h].expires <= s.now + 300
  }

  ghost predicate Timely(s: State) {
    (forall h :: TokenDue(s, h)) && (forall h :: CodeDue(s, h))
  }

  /** The rows are those from before, perhaps fewer or revoked, and no time has been lost. */
  ghost predicate Aged(s: State, s': State) {
    && s.now <= s'.now
    && (forall h :: NeutralRow(s, s', h))
    && (forall h :: h in s'.codes ==> h in s.codes && s'.codes[h] == s.codes[h])
  }

  lemma AgedTimely(s: State, s': State)
    requires Timely(s) && Aged(s, s')
    ensures Timely(s')
  {
    forall h ensures TokenDue(s', h) { assert TokenDue(s, h) && NeutralRow(s, s', h); }
    forall h ensures CodeDue(s', h) { assert CodeDue(s, h); }
  }

  lemma InsertTimely(s: State, r: RequestId, h: Hash, t: Ticket, kind: Kind)
    requires Timely(s)
    ensures Timely(DoInsert(s, r, h, t, kind))
  {
    var s' := DoInsert(s, r, h, t, kind);
    forall x ensures TokenDue(s', x) { assert TokenDue(s, x); }
    forall x ensures CodeDue(s', x) { assert CodeDue(s, x); }
  }

  lemma IssueTimely(s: State, r: RequestId, h: Hash, p: Phase)
    requires Timely(s) && p.MayIssue?
    ensures Timely(DoIssueCode(s, r, h, p))
  {
    var s' := DoIssueCode(s, r, h, p);
    forall x ensures TokenDue(s', x) { assert TokenDue(s, x); }
    forall x ensures CodeDue(s', x) { assert CodeDue(s, x); }
  }

  lemma ClaimAged(s: State, r: RequestId, c: ClientId, h: Hash)
    ensures Aged(s, DoClaim(s, r, c, h))
  {
    var s' := DoClaim(s, r, c, h);
    assert s'.now == s.now && s'.codes == s.codes;
    forall x ensures NeutralRow(s, s', x) {}
  }

  lemma RedeemAged(s: State, r: RequestId, c: ClientId, h: Hash, verifier: string, redirect: string)
    requires h in s.codes
    ensures Aged(s, DoRedeem(s, r, c, h, verifier, redirect))
  {
    var s' := DoRedeem(s, r, c, h, verifier, redirect);
    assert s'.now == s.now && s'.tokens == s.tokens;
    forall x ensures NeutralRow(s, s', x) {}
  }

  lemma GrantAged(s: State, g: GrantStep)
    ensures Aged(s, GrantNext(s, g))
  {
    match g {
      case RedeemCode(r, c, h, verifier, redirect) => if h in s.codes { RedeemAged(s, r, c, h, verifier, redirect); }
      case Credentials(r, c, scope) =>
      case Claim(r, c, h) => ClaimAged(s, r, c, h);
    }
  }

  lemma RevokedAged(s: State, s': State, f: Family)
    requires s'.now == s.now && s'.codes == s.codes && s'.tokens == RevokeFamily(s.tokens, f)
    ensures Aged(s, s')
  {
  }

  lemma SameRowsAged(s: State, s': State)
    requires s'.now == s.now && s'.codes == s.codes && s'.tokens == s.tokens
    ensures Aged(s, s')
  {
  }

  lemma LookupRows(s: State, r: RequestId, p: Phase)
    requires p.Missed?
    ensures var s' := DoLookupReplay(s, r, p); s'.now == s.now && s'.codes == s.codes && s'.tokens == s.tokens
  {
  }

  lemma ResumeAged(s: State, r: RequestId, p: Phase, x: Statement)
    requires !x.InsertAccess? && !x.InsertRefresh?
    ensures Aged(s, ResumeNext(s, r, p, x))
  {
    var s' := ResumeNext(s, r, p, x);
    if x.Sweep? && p.Claimed? {
      RevokedAged(s, s', p.ticket.family);
    } else if x.RevokeReplay? && p.Replaying? {
      RevokedAged(s, s', p.target);
    } else {
      if x.LookupReplay? && p.Missed? { LookupRows(s, r, p); }
      SameRowsAged(s, s');
    }
  }

  lemma ResumeTimely(s: State, r: RequestId, p: Phase, x: Statement)
    requires Timely(s)
    ensures Timely(ResumeNext(s, r, p, x))
  {
    match x {
      case InsertAccess(h) => if p.Ready? { InsertTimely(s, r, h, p.ticket, Access); }
      case InsertRefresh(h) => if p.AccessOut? { InsertTimely(s, r, h, p.ticket, Refresh); }
      case _ => ResumeAged(s, r, p, x); AgedTimely(s, ResumeNext(s, r, p, x));
    }
  }

  lemma AuthorizationTimely(s: State, a: AuthorizationStep)
    requires Timely(s)
    ensures Timely(AuthorizationNext(s, a))
  {
    if a.IssueCode? {
      if a.r in s.flight && s.flight[a.r].MayIssue? { IssueTimely(s, a.r, a.hash, s.flight[a.r]); }
    } else {
      AgedTimely(s, AuthorizationNext(s, a));
    }
  }

  lemma ClientAged(s: State, x: ClientStep)
    ensures Aged(s, ClientNext(s, x))
  {
    ClientNeutral(s, x);
  }

  lemma RevokeAged(s: State, c: ClientId, h: Hash)
    ensures Aged(s, DoRevoke(s, c, h))
  {
    RevokeNeutral(s, c, h);
  }

  lemma PurgeAged(s: State)
    ensures Aged(s, DoPurge(s))
  {
    PurgeNeutral(s);
  }

  lemma StepTimely(s: State, e: Event)
    requires Timely(s)
    ensures Timely(Step(s, e))
  {
    match e {
      case Authorization(a) => AuthorizationTimely(s, a);
      case Grant(g) => GrantAged(s, g); AgedTimely(s, GrantNext(s, g));
      case Resume(r, x) => if r in s.flight { ResumeTimely(s, r, s.flight[r], x); }
      case Administer(x) => ClientAged(s, x); AgedTimely(s, ClientNext(s, x));
      case Revoke(c, h) => RevokeAged(s, c, h); AgedTimely(s, DoRevoke(s, c, h));
      case Purge => PurgeAged(s); AgedTimely(s, DoPurge(s));
      case Tick(d) => AgedTimely(s, Step(s, e));
      case Fail(r) => SameRowsAged(s, Land(s, r)); AgedTimely(s, Land(s, r));
    }
  }

  lemma {:induction false} RunTimely(s: State, es: seq<Event>)
    requires Timely(s)
    ensures Timely(Run(s, es))
    decreases |es|
  {
    if es != [] {
      StepTimely(s, es[0]);
      RunTimely(Step(s, es[0]), es[1..]);
    }
  }

  // ---- a row keeps its date ------------------------------------------------------------------------------------

  /** As long as the row is there it has this kind and expires then. */
  predicate Dated(s: State, h: Hash, kind: Kind, expires: nat) {
    h in s.issued && (h in s.tokens ==> s.tokens[h].kind == kind && s.tokens[h].expires == expires)
  }

  lemma InsertDated(s: State, r: RequestId, y: Hash, t: Ticket, k: Kind, h: Hash, kind: Kind, expires: nat)
    requires Dated(s, h, kind, expires) && y !in s.issued
    ensures Dated(DoInsert(s, r, y, t, k), h, kind, expires)
  {
  }

  lemma ResumeDated(s: State, r: RequestId, p: Phase, x: Statement, h: Hash, kind: Kind, expires: nat)
    requires Dated(s, h, kind, expires)
    ensures Dated(ResumeNext(s, r, p, x), h, kind, expires)
  {
    match x {
      case InsertAccess(y) => if p.Ready? && y !in s.issued {
        InsertDated(s, r, y, p.ticket, Access, h, kind, expires);
      }
      case InsertRefresh(y) => if p.AccessOut? && y !in s.issued {
        InsertDated(s, r, y, p.ticket, Refresh, h, kind, expires);
      }
      case _ => ResumeAged(s, r, p, x); assert NeutralRow(s, ResumeNext(s, r, p, x), h);
    }
  }

  lemma StepDated(s: State, e: Event, h: Hash, kind: Kind, expires: nat)
    requires Dated(s, h, kind, expires)
    ensures Dated(Step(s, e), h, kind, expires)
  {
    match e {
      case Authorization(a) => AuthorizationNeutral(s, a); assert NeutralRow(s, Step(s, e), h);
      case Grant(g) => GrantAged(s, g); assert NeutralRow(s, Step(s, e), h); GrantFamilies(s, g);
      case Resume(r, x) => if r in s.flight { ResumeDated(s, r, s.flight[r], x, h, kind, expires); }
      case _ =>
    }
  }

  lemma {:induction false} RunDated(s: State, es: seq<Event>, h: Hash, kind: Kind, expires: nat)
    requires Dated(s, h, kind, expires)
    ensures Dated(Run(s, es), h, kind, expires)
    decreases |es|
  {
    if es != [] {
      StepDated(s, es[0], h, kind, expires);
      RunDated(Step(s, es[0]), es[1..], h, kind, expires);
    }
  }

  /** Once its lifetime has passed since any moment the token was there, an access token is not accepted and a refresh
      token cannot be claimed, whatever happened in between. */
  lemma TokenLifetime(clients: map<ClientId, Client>, es: seq<Event>, later: seq<Event>, h: Hash, c: ClientId,
                      active: bool)
    requires h in Run(Init(clients), es).tokens
    ensures var s := Run(Init(clients), es);
      var s' := Run(s, later);
      s'.now >= s.now + Ttl(s.tokens[h].kind) ==> !AccessAccepted(s', h, active) && !ClaimMatches(s', c, h)
  {
    var s := Run(Init(clients), es);
    ReachableKeeps(clients, es);
    assert TokenKnown(s, h);
    RunTimely(Init(clients), es);
    assert TokenDue(s, h);
    RunDated(s, later, h, s.tokens[h].kind, s.tokens[h].expires);
  }

  /** As long as the code is there it expires then. */
  predicate CodeDated(s: State, h: Hash, expires: nat) {
    h in s.codesEver && (h in s.codes ==> s.codes[h].expires == expires)
  }

  lemma AuthorizationCodeDated(s: State, a: AuthorizationStep, h: Hash, expires: nat)
    requires CodeDated(s, h, expires)
    ensures CodeDated(AuthorizationNext(s, a), h, expires)
  {
  }

  lemma GrantCodeDated(s: State, g: GrantStep, h: Hash, expires: nat)
    requires CodeDated(s, h, expires)
    ensures CodeDated(GrantNext(s, g), h, expires)
  {
  }

  lemma ResumeCodeDated(s: State, r: RequestId, p: Phase, x: Statement, h: Hash, expires: nat)
    requires CodeDated(s, h, expires)
    ensures CodeDated(ResumeNext(s, r, p, x), h, expires)
  {
    if !x.MintFamily? { ResumeStill(s, r, p, x); }
  }

  lemma StepCodeDated(s: State, e: Event, h: Hash, expires: nat)
    requires CodeDated(s, h, expires)
    ensures CodeDated(Step(s, e), h, expires)
  {
    match e {
      case Authorization(a) => AuthorizationCodeDated(s, a, h, expires);
      case Grant(g) => GrantCodeDated(s, g, h, expires);
      case Resume(r, x) => if r in s.flight { ResumeCodeDated(s, r, s.flight[r], x, h, expires); }
      case _ =>
    }
  }

  lemma {:induction false} RunCodeDated(s: State, es: seq<Event>, h: Hash, expires: nat)
    requires CodeDated(s, h, expires)
    ensures CodeDated(Run(s, es), h, expires)
    decreases |es|
  {
    if es != [] {
      StepCodeDated(s, es[0], h, expires);
      RunCodeDated(Step(s, es[0]), es[1..], h, expires);
    }
  }

  /** Once five minutes have passed since any moment a code was there, presenting it does nothing, whatever happened
      in between. */
  lemma CodeLifetime(clients: map<ClientId, Client>, es: seq<Event>, later: seq<Event>, r: RequestId, c: ClientId,
                     h: Hash, verifier: string, redirect: string)
    requires h in Run(Init(clients), es).codes
    ensures var s := Run(Init(clients), es);
      var s' := Run(s, later);
      s'.now >= s.now + 300 ==> Step(s', Grant(RedeemCode(r, c, h, verifier, redirect))) == s'
  {
    var s := Run(Init(clients), es);
    RunTimely(Init(clients), es);
    OriginRun(Init(clients), es);
    assert CodeDue(s, h) && CodeKnown(s, h);
    RunCodeDated(s, later, h, s.codes[h].expires);
  }
}
