/** What each step of the token machine leaves alone, and what a code or token is from the moment it is written. The
    conditions are spelled out over the tables, apart from the definitions the steps use. */
module TokenFrames {
  import opened Common
  import opened Scopes
  import opened TokenMachine
  import opened TokenInvariants
  import opened TokenFamilies

  // ---- what requests ask for, in words of the protocol ------------------------------------------------------------

  /** 43 to 128 letters, digits, full stops, underscores, tildes and hyphens. */
  predicate WellShaped(v: string) {
    43 <= |v| <= 128 && forall i :: 0 <= i < |v| ==>
      'A' <= v[i] <= 'Z' || 'a' <= v[i] <= 'z' || '0' <= v[i] <= '9' || v[i] in "._~-"
  }

  /** The client is registered with the redirect URI and with every word asked for but offline_access, and every word
      is one the provider knows. */
  ghost predicate Requestable(s: State, c: ClientId, q: AuthzRequest) {
    && c in s.clients && q.redirect in s.clients[c].redirects
    && forall w :: w in Words(q.scope) ==>
         && (w == "openid" || w == "profile" || w == "email" || w == "tenant" || w == "roles" || w == "offline_access")
         && (w == "offline_access" || w in Words(s.clients[c].scopes))
  }

  /** The client is registered with every word but offline_access. */
  ghost predicate Allowed(client: Client, scope: string) {
    forall w :: w in Words(scope) ==> w == "offline_access" || w in Words(client.scopes)
  }

  /** The code is there, unexpired, and was given to this client for this redirect URI and this verifier. */
  predicate Redeemable(s: State, c: ClientId, h: Hash, verifier: string, redirect: string) {
    && h in s.codes && s.now < s.codes[h].expires
    && s.codes[h].client == c && s.codes[h].redirect == redirect && s.codes[h].challenge == S256(verifier)
  }

  // ---- tokens -----------------------------------------------------------------------------------------------------

  /** The step revokes this row. */
  predicate Revokes(s: State, e: Event, h: Hash)
    requires h in s.tokens
  {
    var k := s.tokens[h];
    match e
    case Grant(g) => g.Claim? && g.hash == h && g.r !in s.flight && g.client in s.clients && Rotatable(s, g.client, h)
    case Resume(r, x) =>
      r in s.flight && ((x.Sweep? && s.flight[r].Claimed? && s.flight[r].ticket.family == k.family)
                        || (x.RevokeReplay? && s.flight[r] == Replaying(k.family)))
    case Revoke(c, x) => c in s.clients && x in s.tokens && s.tokens[x].family == k.family && c == k.client
    case _ => false
  }

  /** The step deletes this row: a day after it expired, or with its client. */
  predicate Deletes(s: State, e: Event, h: Hash)
    requires h in s.tokens
  {
    match e
    case Purge => s.tokens[h].expires + 86_400 < s.now
    case Administer(x) => x == DeleteClient(s.tokens[h].client) && s.tokens[h].client in s.clients
    case _ => false
  }

  /** What becomes of a row. */
  function RowAfter(s: State, e: Event, h: Hash): Option<Token>
    requires h in s.tokens
  {
    if Deletes(s, e, h) then None
    else if Revokes(s, e, h) then Some(s.tokens[h].(revoked := true))
    else Some(s.tokens[h])
  }

  function RowOf(s: State, h: Hash): Option<Token> {
    if h in s.tokens then Some(s.tokens[h]) else None
  }

  lemma ResumeRow(s: State, r: RequestId, x: Statement, h: Hash)
    requires h in s.tokens && h in s.issued && r in s.flight
    ensures RowOf(ResumeNext(s, r, s.flight[r], x), h) == RowAfter(s, Resume(r, x), h)
  {
  }

  lemma GrantRow(s: State, g: GrantStep, h: Hash)
    requires h in s.tokens
    ensures RowOf(GrantNext(s, g), h) == RowAfter(s, Grant(g), h)
  {
  }

  lemma AuthorizationRow(s: State, a: AuthorizationStep, h: Hash)
    requires h in s.tokens
    ensures RowOf(AuthorizationNext(s, a), h) == RowOf(s, h)
  {
  }

  /** Every step leaves a row as it is but for exactly these: a claim of it, a sweep of its family, a detected replay or
      a revocation in its family, the purge a day after its end, and the deletion of its client. */
  lemma TokenFrame(s: State, e: Event, h: Hash)
    requires TokenInv(s) && h in s.tokens
    ensures RowOf(Step(s, e), h) == RowAfter(s, e, h)
  {
    assert TokenKnown(s, h);
    match e {
      case Authorization(a) => AuthorizationRow(s, a, h);
      case Grant(g) => GrantRow(s, g, h);
      case Resume(r, x) => if r in s.flight { ResumeRow(s, r, x, h); }
      case Revoke(c, x) => RevokeRow(s, c, x, h);
      case Administer(x) => ClientRow(s, x, h);
      case _ =>
    }
  }

  lemma RevokeRow(s: State, c: ClientId, x: Hash, h: Hash)
    requires h in s.tokens
    ensures RowOf(Step(s, Revoke(c, x)), h) == RowAfter(s, Revoke(c, x), h)
  {
  }

  lemma ClientRow(s: State, x: ClientStep, h: Hash)
    requires h in s.tokens
    ensures RowOf(ClientNext(s, x), h) == RowAfter(s, Administer(x), h)
  {
  }

  /** No step of the run revokes or deletes the row. */
  ghost predicate Undisturbed(s: State, es: seq<Event>, h: Hash)
    decreases |es|
  {
    es == [] || (h in s.tokens && !Revokes(s, es[0], h) && !Deletes(s, es[0], h)
                 && Undisturbed(Step(s, es[0]), es[1..], h))
  }

  lemma {:induction false} RowLasts(s: State, es: seq<Event>, h: Hash)
    requires TokenInv(s) && h in s.tokens && Undisturbed(s, es, h)
    ensures RowOf(Run(s, es), h) == RowOf(s, h)
    decreases |es|
  {
    if es != [] {
      TokenFrame(s, es[0], h);
      StepKeeps(s, es[0]);
      RowLasts(Step(s, es[0]), es[1..], h);
    }
  }

  /** What a token is when it is written: of the ticket's family, client, user and scope, live, and good for an hour or
      for thirty days. */
  lemma WrittenToken(s: State, r: RequestId, t: Ticket, h: Hash, kind: Kind)
    requires r in s.flight && s.flight[r] == (if kind == Access then Ready(t) else AccessOut(t)) && h !in s.issued
    ensures var s' := Step(s, Resume(r, if kind == Access then InsertAccess(h) else InsertRefresh(h)));
      RowOf(s', h) == Some(Token(kind, t.family, t.client, t.client.tenant, t.user, t.scope,
                                 s.now + (if kind == Access then 3_600 else 2_592_000), false))
  {
  }

  /** A token that was written is accepted, or can be claimed by its client, for exactly its lifetime in every later run
      that neither revokes nor deletes it; and an access token is never claimed, a refresh token never accepted. */
  lemma AcceptedForLifetime(s: State, r: RequestId, t: Ticket, h: Hash, kind: Kind, later: seq<Event>, c: ClientId)
    requires TokenInv(s) && r in s.flight && h !in s.issued
    requires s.flight[r] == if kind == Access then Ready(t) else AccessOut(t)
    requires var s1 := Step(s, Resume(r, if kind == Access then InsertAccess(h) else InsertRefresh(h)));
      Undisturbed(s1, later, h)
    ensures var s1 := Step(s, Resume(r, if kind == Access then InsertAccess(h) else InsertRefresh(h)));
      var s' := Run(s1, later);
      && (AccessAccepted(s', h, true) <==> kind == Access && s'.now < s.now + 3_600)
      && !AccessAccepted(s', h, false)
      && (ClaimMatches(s', c, h) <==> kind == Refresh && c == t.client && s'.now < s.now + 2_592_000)
  {
    var e := Resume(r, if kind == Access then InsertAccess(h) else InsertRefresh(h));
    WrittenToken(s, r, t, h, kind);
    StepKeeps(s, e);
    RowLasts(Step(s, e), later, h);
  }

  // ---- codes ------------------------------------------------------------------------------------------------------

  /** The step takes this code away: it is presented with a well-shaped verifier, it is past its end and purged, or its
      client is deleted. */
  predicate Takes(s: State, e: Event, h: Hash)
    requires h in s.codes
  {
    match e
    case Grant(g) =>
      && g.RedeemCode? && g.hash == h && g.r !in s.flight && g.client in s.clients && WellShaped(g.verifier)
      && s.now < s.codes[h].expires
    case Purge => s.codes[h].expires < s.now
    case Administer(x) => x == DeleteClient(s.codes[h].client) && s.codes[h].client in s.clients
    case _ => false
  }

  lemma Shapes(v: string)
    ensures PkceShape(v) <==> WellShaped(v)
  {
    assert forall c: char :: PkceChar(c) <==>
      'A' <= c <= 'Z' || 'a' <= c <= 'z' || '0' <= c <= '9' || c in "._~-";
  }

  function CodeOf(s: State, h: Hash): Option<Code> {
    if h in s.codes then Some(s.codes[h]) else None
  }

  lemma GrantCodes(s: State, g: GrantStep, h: Hash)
    requires h in s.codes
    ensures CodeOf(GrantNext(s, g), h) == if Takes(s, Grant(g), h) then None else CodeOf(s, h)
  {
    if g.RedeemCode? { Shapes(g.verifier); }
  }

  lemma ResumeCodes(s: State, r: RequestId, p: Phase, x: Statement)
    ensures ResumeNext(s, r, p, x).codes == s.codes
  {
  }

  lemma AuthorizationCodes(s: State, a: AuthorizationStep, h: Hash)
    requires h in s.codes && h in s.codesEver
    ensures CodeOf(AuthorizationNext(s, a), h) == CodeOf(s, h)
  {
  }

  /** Every step leaves a code as it is but for exactly the ones that take it. */
  lemma CodeFrame(s: State, e: Event, h: Hash)
    requires h in s.codes && h in s.codesEver
    ensures CodeOf(Step(s, e), h) == if Takes(s, e, h) then None else CodeOf(s, h)
  {
    match e {
      case Authorization(a) => AuthorizationCodes(s, a, h);
      case Grant(g) => GrantCodes(s, g, h);
      case Resume(r, x) => if r in s.flight { ResumeCodes(s, r, s.flight[r], x); }
      case _ =>
    }
  }

  /** What a code is when it is issued: what the request asked for, good for five minutes. */
  lemma WrittenCode(s: State, r: RequestId, h: Hash)
    requires r in s.flight && s.flight[r].MayIssue? && h !in s.codesEver
    ensures var p, s' := s.flight[r], Step(s, Authorization(IssueCode(r, h)));
      CodeOf(s', h) == Some(Code(p.client, p.client.tenant, p.user, p.request.redirect, p.request.scope,
                                 p.request.challenge, s.now + 300))
  {
  }

  // ---- clients and consents ---------------------------------------------------------------------------------------

  /** Registering or changing a client writes its redirect URIs and scopes and nothing else; a change never makes a
      public client confidential or the other way round. */
  lemma SavedClient(s: State, c: ClientId, redirects: set<string>, scopes: string, confidential: bool, x: ClientId)
    ensures var s' := Step(s, Administer(SaveClient(c, redirects, scopes, confidential)));
      && c in s'.clients && s'.clients[c].redirects == redirects && s'.clients[c].scopes == scopes
      && s'.clients[c].confidential == (if c in s.clients then s.clients[c].confidential else confidential)
      && (x != c ==> (x in s'.clients <==> x in s.clients) && (x in s.clients ==> s'.clients[x] == s.clients[x]))
      && s'.consents == s.consents
  {
  }

  /** Deleting a client takes its consents with it and leaves those of others, as well as the other clients. */
  lemma DeletedClient(s: State, c: ClientId, x: ClientId, u: User)
    requires c in s.clients
    ensures var s' := Step(s, Administer(DeleteClient(c)));
      && (x in s'.clients <==> x in s.clients && x != c) && (x in s'.clients ==> s'.clients[x] == s.clients[x])
      && (ConsentKey(u, x) in s'.consents <==> ConsentKey(u, x) in s.consents && x != c)
      && (ConsentKey(u, x) in s'.consents ==> s'.consents[ConsentKey(u, x)] == s.consents[ConsentKey(u, x)])
  {
  }

  /** Nothing else touches the clients. */
  lemma ClientFrame(s: State, e: Event)
    requires !e.Administer?
    ensures Step(s, e).clients == s.clients
  {
    match e {
      case Grant(g) => GrantClients(s, g);
      case Resume(r, x) => if r in s.flight { ResumeClients(s, r, s.flight[r], x); }
      case _ =>
    }
  }

  lemma GrantClients(s: State, g: GrantStep)
    ensures GrantNext(s, g).clients == s.clients
  {
  }

  lemma ResumeClients(s: State, r: RequestId, p: Phase, x: Statement)
    ensures ResumeNext(s, r, p, x).clients == s.clients
  {
  }
}
