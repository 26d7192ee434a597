/** The OAuth token endpoint as a step machine. Every SQL statement of a handler is one step, so
    any number of requests may be between two of their statements at any time; a request between
    statements is an entry of `flight`, whose phase says which statement it reached and what it
    read. Answers from outside (membership, fresh random values) are parameters of the steps. */
module TokenMachine {
  import opened Common
  import opened Scopes

  type Hash = nat
  type Family = nat
  type User = nat
  type TenantId = nat
  type RequestId = nat

  /** A client id is drawn with the tenant's id in it, so it belongs to one tenant for good. */
  datatype ClientId = ClientId(tenant: TenantId, serial: nat)

  const CODE_TTL := 5 * 60
  const ACCESS_TTL := 60 * 60
  const REFRESH_TTL := 30 * 24 * 60 * 60
  const PURGE_DELAY := 24 * 60 * 60
  const KNOWN_SCOPES := {"openid", "profile", "email", "tenant", "roles", "offline_access"}

  /** A PKCE challenge is the S256 digest of some verifier, or text that no verifier digests to. */
  datatype Challenge = S256(verifier: string) | Unhashed(text: string)

  datatype Client = Client(redirects: set<string>, scopes: string, confidential: bool)
  datatype AuthzRequest = AuthzRequest(redirect: string, scope: string, challenge: Challenge)
  datatype ConsentKey = ConsentKey(user: User, client: ClientId)
  datatype Consent = Consent(user: User, client: ClientId, scope: string)
  datatype Code = Code(client: ClientId, tenant: TenantId, user: User, redirect: string, scope: string,
                       challenge: Challenge, expires: nat)
  datatype Kind = Access | Refresh
  datatype Token = Token(kind: Kind, family: Family, client: ClientId, tenant: TenantId,
                         user: Option<User>, scope: string, expires: nat, revoked: bool)

  /** What a family was started with: a code and the values presented with it, or client credentials. */
  datatype Origin = ByCode(code: Hash, redirect: string, verifier: string) | ByCredentials
  datatype FamilyRecord = FamilyRecord(client: ClientId, tenant: TenantId, user: Option<User>, scope: string,
                                       origin: Origin)

  /** The place a token takes in its family: right after the family's birth, or after a refresh token. */
  datatype Slot = Birth(family: Family) | After(hash: Hash)
  datatype Issue = Issue(kind: Kind, family: Family, slot: Slot)

  /** What a request that will write tokens of a family carries between its statements. */
  datatype Ticket = Ticket(client: ClientId, user: Option<User>, scope: string, family: Family, slot: Slot,
                           withRefresh: bool)

  datatype Phase =
    | MayIssue(user: User, client: ClientId, request: AuthzRequest)   // consent read or written, code not yet inserted
    | Redeemed(caller: ClientId, who: Option<User>, scope: string, origin: Origin, withRefresh: bool) // no family yet
    | Claimed(ticket: Ticket)     // presented refresh token revoked by this request
    | Swept(ticket: Ticket)       // rest of the family revoked too
    | Ready(ticket: Ticket)       // may insert the access token
    | AccessOut(ticket: Ticket)   // access token inserted, refresh token not yet
    | Missed(caller: ClientId, presented: Hash)   // claim matched no row
    | Replaying(target: Family)   // the presented token turned out to be a revoked one

  datatype State = State(
    clients: map<ClientId, Client>, now: nat,
    consents: map<ConsentKey, string>, codes: map<Hash, Code>, tokens: map<Hash, Token>,
    flight: map<RequestId, Phase>,
    // History: everything ever consented, issued or started. Rows of the tables above may be deleted.
    consented: set<Consent>, codesEver: map<Hash, Code>, families: map<Family, FamilyRecord>,
    issued: map<Hash, Issue>)

  /** Statements of the authorization endpoint. */
  datatype AuthorizationStep =
    | Authorize(r: RequestId, user: User, client: ClientId, request: AuthzRequest, member: bool, prompt: bool)
    | Approve(r: RequestId, user: User, client: ClientId, request: AuthzRequest, member: bool)
    | IssueCode(r: RequestId, hash: Hash)

  /** First statements of a token request. */
  datatype GrantStep =
    | RedeemCode(r: RequestId, client: ClientId, hash: Hash, verifier: string, redirect: string)
    | Credentials(r: RequestId, client: ClientId, scope: string)
    | Claim(r: RequestId, client: ClientId, hash: Hash)

  /** Later statements of a token request. */
  datatype Statement =
    | MintFamily(family: Family)
    | Sweep
    | CheckActive(active: bool)
    | InsertAccess(hash: Hash)
    | InsertRefresh(hash: Hash)
    | LookupReplay
    | RevokeReplay

  /** Registering or changing a client of the tenant, and deleting one with all that the cleanup trigger deletes. */
  datatype ClientStep =
    | SaveClient(client: ClientId, redirects: set<string>, scopes: string, confidential: bool)
    | DeleteClient(client: ClientId)

  datatype Event =
    | Tick(seconds: nat)
    | Authorization(a: AuthorizationStep)
    | Grant(g: GrantStep)
    | Resume(r: RequestId, statement: Statement)
    | Fail(r: RequestId)
    | Revoke(client: ClientId, hash: Hash)
    | Purge
    | Administer(x: ClientStep)

  predicate PkceChar(c: char) {
    'A' <= c <= 'Z' || 'a' <= c <= 'z' || '0' <= c <= '9' || c == '.' || c == '_' || c == '~' || c == '-'
  }

  /** pkceRe. */
  predicate PkceShape(v: string) {
    43 <= |v| <= 128 && forall i :: 0 <= i < |v| ==> PkceChar(v[i])
  }

  predicate AcceptableRequest(s: State, c: ClientId, q: AuthzRequest) {
    c in s.clients && q.redirect in s.clients[c].redirects && Words(q.scope) <= KNOWN_SCOPES
    && Words(q.scope) - {"offline_access"} <= Words(s.clients[c].scopes)
  }

  /** WHERE family = f AND revoked_at IS NULL: every live row of the family becomes revoked. */
  function RevokeFamily(tokens: map<Hash, Token>, f: Family): map<Hash, Token> {
    map h | h in tokens :: if tokens[h].family == f then tokens[h].(revoked := true) else tokens[h]
  }

  predicate ClaimMatches(s: State, c: ClientId, h: Hash) {
    h in s.tokens && s.tokens[h].kind == Refresh && s.tokens[h].client == c && !s.tokens[h].revoked
    && s.tokens[h].expires > s.now
  }

  predicate CodeMatches(code: Code, c: ClientId, redirect: string, verifier: string) {
    code.client == c && code.redirect == redirect && code.challenge == S256(verifier)
  }

  predicate WantsRefresh(t: Ticket) {
    t.withRefresh && t.user.Some? && HasWord(t.scope, "offline_access")
  }

  function Without(flight: map<RequestId, Phase>, r: RequestId): map<RequestId, Phase> {
    map q | q in flight && q != r :: flight[q]
  }

  function Land(s: State, r: RequestId): State {
    s.(flight := Without(s.flight, r))
  }

  function NewToken(s: State, t: Ticket, kind: Kind): Token {
    Token(kind, t.family, t.client, t.client.tenant, t.user, t.scope,
          s.now + (if kind == Access then ACCESS_TTL else REFRESH_TTL), false)
  }

  function DoInsert(s: State, r: RequestId, h: Hash, t: Ticket, kind: Kind): State {
    s.(tokens := s.tokens[h := NewToken(s, t, kind)],
       issued := s.issued[h := Issue(kind, t.family, t.slot)],
       flight := if kind == Access && WantsRefresh(t) then s.flight[r := AccessOut(t)] else Without(s.flight, r))
  }

  /** DELETE ... RETURNING, then the comparison with what the request presented. */
  function DoRedeem(s: State, r: RequestId, c: ClientId, h: Hash, verifier: string, redirect: string): State
    requires h in s.codes
  {
    var code := s.codes[h];
    s.(codes := map x | x in s.codes && x != h :: s.codes[x],
       flight := if CodeMatches(code, c, redirect, verifier)
                 then s.flight[r := Redeemed(c, Some(code.user), code.scope, ByCode(h, redirect, verifier), true)]
                 else s.flight)
  }

  function ClaimedBy(k: Token, c: ClientId, h: Hash): Phase {
    Claimed(Ticket(c, k.user, k.scope, k.family, After(h), true))
  }

  /** UPDATE ... RETURNING: the one request that turns the live row revoked gets the ticket. */
  function DoClaim(s: State, r: RequestId, c: ClientId, h: Hash): State {
    s.(tokens := if ClaimMatches(s, c, h) then s.tokens[h := s.tokens[h].(revoked := true)] else s.tokens,
       flight := s.flight[r := if ClaimMatches(s, c, h) then ClaimedBy(s.tokens[h], c, h) else Missed(c, h)])
  }

  function DoMint(s: State, r: RequestId, f: Family, p: Phase): State
    requires p.Redeemed?
  {
    s.(families := s.families[f := FamilyRecord(p.caller, p.caller.tenant, p.who, p.scope, p.origin)],
       flight := s.flight[r := Ready(Ticket(p.caller, p.who, p.scope, f, Birth(f), p.withRefresh))])
  }

  function DoSweep(s: State, r: RequestId, t: Ticket): State {
    s.(tokens := RevokeFamily(s.tokens, t.family), flight := s.flight[r := Swept(t)])
  }

  function DoCheck(s: State, r: RequestId, t: Ticket, active: bool): State {
    s.(flight := if active then s.flight[r := Ready(t)] else Without(s.flight, r))
  }

  function DoRevokeReplay(s: State, r: RequestId, f: Family): State {
    s.(tokens := RevokeFamily(s.tokens, f), flight := Without(s.flight, r))
  }

  function DoIssueCode(s: State, r: RequestId, h: Hash, p: Phase): State
    requires p.MayIssue?
  {
    var q := p.request;
    var code := Code(p.client, p.client.tenant, p.user, q.redirect, q.scope, q.challenge, s.now + CODE_TTL);
    Land(s.(codes := s.codes[h := code], codesEver := s.codesEver[h := code]), r)
  }

  function DoApprove(s: State, r: RequestId, u: User, c: ClientId, q: AuthzRequest): State {
    s.(consents := s.consents[ConsentKey(u, c) := q.scope],
       consented := s.consented + {Consent(u, c, q.scope)},
       flight := s.flight[r := MayIssue(u, c, q)])
  }

  predicate FindsReplay(s: State, c: ClientId, h: Hash) {
    h in s.tokens && s.tokens[h].kind == Refresh && s.tokens[h].client == c && s.tokens[h].revoked
  }

  function DoLookupReplay(s: State, r: RequestId, p: Phase): State
    requires p.Missed?
  {
    s.(flight := if FindsReplay(s, p.caller, p.presented)
                 then s.flight[r := Replaying(s.tokens[p.presented].family)] else Without(s.flight, r))
  }

  function DoRevoke(s: State, c: ClientId, h: Hash): State {
    if h !in s.tokens then s
    else s.(tokens := map x | x in s.tokens ::
                        if s.tokens[x].client == c && s.tokens[x].family == s.tokens[h].family
                        then s.tokens[x].(revoked := true) else s.tokens[x])
  }

  function DoPurge(s: State): State {
    s.(codes := map h | h in s.codes && s.codes[h].expires >= s.now :: s.codes[h],
       tokens := map h | h in s.tokens && s.tokens[h].expires + PURGE_DELAY >= s.now :: s.tokens[h])
  }

  /** A change leaves the secret as it is, so a client stays confidential or public. */
  function DoSave(s: State, c: ClientId, redirects: set<string>, scopes: string, confidential: bool): State {
    var secret := if c in s.clients then s.clients[c].confidential else confidential;
    s.(clients := s.clients[c := Client(redirects, scopes, secret)])
  }

  function DoDelete(s: State, c: ClientId): State {
    s.(clients := map x | x in s.clients && x != c :: s.clients[x],
       consents := map k | k in s.consents && k.client != c :: s.consents[k],
       codes := map h | h in s.codes && s.codes[h].client != c :: s.codes[h],
       tokens := map h | h in s.tokens && s.tokens[h].client != c :: s.tokens[h])
  }

  function ClientNext(s: State, x: ClientStep): State {
    match x
    case SaveClient(c, redirects, scopes, confidential) => DoSave(s, c, redirects, scopes, confidential)
    case DeleteClient(c) => if c in s.clients then DoDelete(s, c) else s
  }

  function AuthorizationNext(s: State, a: AuthorizationStep): State {
    match a
    case Authorize(r, u, c, q, member, prompt) =>
      if r !in s.flight && AcceptableRequest(s, c, q) && member && !prompt
         && ConsentKey(u, c) in s.consents && Words(q.scope) <= Words(s.consents[ConsentKey(u, c)])
      then s.(flight := s.flight[r := MayIssue(u, c, q)]) else s
    case Approve(r, u, c, q, member) =>
      if r !in s.flight && AcceptableRequest(s, c, q) && member then DoApprove(s, r, u, c, q) else s
    case IssueCode(r, h) =>
      if r in s.flight && s.flight[r].MayIssue? && h !in s.codesEver then DoIssueCode(s, r, h, s.flight[r]) else s
  }

  function GrantNext(s: State, g: GrantStep): State {
    match g
    case RedeemCode(r, c, h, verifier, redirect) =>
      if r !in s.flight && c in s.clients && PkceShape(verifier) && h in s.codes && s.codes[h].expires > s.now
      then DoRedeem(s, r, c, h, verifier, redirect) else s
    case Credentials(r, c, scope) =>
      if r !in s.flight && c in s.clients && s.clients[c].confidential
         && Words(scope) - {"offline_access"} <= Words(s.clients[c].scopes)
      then s.(flight := s.flight[r := Redeemed(c, None, scope, ByCredentials, false)]) else s
    case Claim(r, c, h) =>
      if r !in s.flight && c in s.clients then DoClaim(s, r, c, h) else s
  }

  function ResumeNext(s: State, r: RequestId, p: Phase, x: Statement): State {
    match x
    case MintFamily(f) => if p.Redeemed? && f !in s.families then DoMint(s, r, f, p) else s
    case Sweep => if p.Claimed? then DoSweep(s, r, p.ticket) else s
    case CheckActive(active) => if p.Swept? then DoCheck(s, r, p.ticket, active) else s
    case InsertAccess(h) => if p.Ready? && h !in s.issued then DoInsert(s, r, h, p.ticket, Access) else s
    case InsertRefresh(h) => if p.AccessOut? && h !in s.issued then DoInsert(s, r, h, p.ticket, Refresh) else s
    case LookupReplay => if p.Missed? then DoLookupReplay(s, r, p) else s
    case RevokeReplay => if p.Replaying? then DoRevokeReplay(s, r, p.target) else s
  }

  /** One statement. A step whose request is not at that statement, or whose random value was drawn
      before, does nothing. */
  function Step(s: State, e: Event): State {
    match e
    case Tick(d) => s.(now := s.now + d)
    case Authorization(a) => AuthorizationNext(s, a)
    case Grant(g) => GrantNext(s, g)
    case Resume(r, x) => if r in s.flight then ResumeNext(s, r, s.flight[r], x) else s
    case Fail(r) => Land(s, r)
    case Revoke(c, h) => if c in s.clients then DoRevoke(s, c, h) else s
    case Purge => DoPurge(s)
    case Administer(x) => ClientNext(s, x)
  }

  function Run(s: State, es: seq<Event>): State
    decreases |es|
  {
    if es == [] then s else Run(Step(s, es[0]), es[1..])
  }

  function Init(clients: map<ClientId, Client>): State {
    State(clients, 0, map[], map[], map[], map[], {}, map[], map[], map[])
  }

  lemma {:induction false} RunConcat(s: State, a: seq<Event>, b: seq<Event>)
    ensures Run(s, a + b) == Run(Run(s, a), b)
    decreases |a|
  {
    if a == [] {
      assert a + b == b;
    } else {
      assert (a + b)[0] == a[0] && (a + b)[1..] == a[1..] + b;
      RunConcat(Step(s, a[0]), a[1..], b);
    }
  }

  /** lookupAccess, given the answer of the membership check. */
  predicate AccessAccepted(s: State, h: Hash, active: bool) {
    h in s.tokens && s.tokens[h].kind == Access && !s.tokens[h].revoked && s.tokens[h].expires > s.now && active
  }
}
