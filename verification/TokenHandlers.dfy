/** The handlers of the token endpoint, statement by statement, over the tables they share with every
    other request. Between two statements any steps of other requests may run. Each handler is shown
    to be a trace of the token machine, so what holds of every run holds of the handlers. */
module TokenHandlers {
  import opened Common
  import opened Scopes
  import opened TokenMachine
  import opened TokenInvariants
  import opened TokenFamilies
  import opened TokenProvenance
  import opened TokenFrames

  datatype Reply =
    | Tokens(access: Hash, refresh: Option<Hash>, scope: string)
    | InvalidRequest
    | InvalidGrant
    | InvalidScope
    | UnauthorizedClient
    | ServerError

  /** Steps that other requests take, one batch for each gap between this request's statements. */
  ghost predicate Gaps(env: seq<seq<Event>>, r: RequestId, n: nat) {
    |env| == n && forall i :: 0 <= i < n ==> ByOthers(env[i], r)
  }

  // ---- values that have not been drawn ----------------------------------------------------------------------------

  predicate Draws(e: Event, h: Hash) {
    e.Resume? && (e.statement == InsertAccess(h) || e.statement == InsertRefresh(h))
  }

  predicate Mints(e: Event, f: Family) {
    e.Resume? && e.statement == MintFamily(f)
  }

  predicate Codes(e: Event, h: Hash) {
    e.Authorization? && e.a.IssueCode? && e.a.hash == h
  }

  /** No step draws this token, this family, or this code. */
  ghost predicate Undrawn(es: seq<Event>, h: Hash) {
    forall i :: 0 <= i < |es| ==> !Draws(es[i], h)
  }

  ghost predicate Unminted(es: seq<Event>, f: Family) {
    forall i :: 0 <= i < |es| ==> !Mints(es[i], f)
  }

  ghost predicate Uncoded(es: seq<Event>, h: Hash) {
    forall i :: 0 <= i < |es| ==> !Codes(es[i], h)
  }

  /** The token is new to the tables and no other request draws it in a gap. */
  ghost predicate UnusedToken(s: State, env: seq<seq<Event>>, h: Hash) {
    h !in s.issued && forall i :: 0 <= i < |env| ==> Undrawn(env[i], h)
  }

  ghost predicate UnusedFamily(s: State, env: seq<seq<Event>>, f: Family) {
    f !in s.families && forall i :: 0 <= i < |env| ==> Unminted(env[i], f)
  }

  lemma ResumeDrawn(s: State, r: RequestId, p: Phase, x: Statement, h: Hash, f: Family)
    ensures h !in s.issued && x != InsertAccess(h) && x != InsertRefresh(h) ==> h !in ResumeNext(s, r, p, x).issued
    ensures f !in s.families && x != MintFamily(f) ==> f !in ResumeNext(s, r, p, x).families
    ensures ResumeNext(s, r, p, x).codesEver == s.codesEver
  {
    match x {
      case MintFamily(g) =>
      case InsertAccess(y) =>
      case InsertRefresh(y) =>
      case _ => ResumeStill(s, r, p, x); QuietIssued(s, r, p, x);
    }
  }

  lemma QuietIssued(s: State, r: RequestId, p: Phase, x: Statement)
    requires !x.MintFamily? && !x.InsertAccess? && !x.InsertRefresh?
    ensures ResumeNext(s, r, p, x).issued == s.issued
  {
  }

  lemma StepDrawn(s: State, e: Event, h: Hash, f: Family, code: Hash)
    ensures h !in s.issued && !Draws(e, h) ==> h !in Step(s, e).issued
    ensures f !in s.families && !Mints(e, f) ==> f !in Step(s, e).families
    ensures code !in s.codesEver && !Codes(e, code) ==> code !in Step(s, e).codesEver
  {
    match e {
      case Authorization(a) => AuthorizationDrawn(s, a, code);
      case Grant(g) => GrantFamilies(s, g); GrantDrawn(s, g);
      case Resume(r, x) => if r in s.flight { ResumeDrawn(s, r, s.flight[r], x, h, f); }
      case Fail(r) => LandStill(s, r); LandNeutral(s, r);
      case Revoke(c, x) => RevokeStill(s, c, x); RevokeNeutral(s, c, x);
      case Purge => PurgeStill(s); PurgeNeutral(s);
      case Administer(x) => ClientStill(s, x); ClientNeutral(s, x);
      case Tick(d) =>
    }
  }

  lemma AuthorizationDrawn(s: State, a: AuthorizationStep, code: Hash)
    ensures AuthorizationNext(s, a).issued == s.issued && AuthorizationNext(s, a).families == s.families
    ensures code !in s.codesEver && !Codes(Authorization(a), code) ==> code !in AuthorizationNext(s, a).codesEver
  {
  }

  lemma GrantDrawn(s: State, g: GrantStep)
    ensures GrantNext(s, g).codesEver == s.codesEver
  {
  }

  lemma {:induction false} RunDrawn(s: State, es: seq<Event>, h: Hash, f: Family, code: Hash)
    ensures h !in s.issued && Undrawn(es, h) ==> h !in Run(s, es).issued
    ensures f !in s.families && Unminted(es, f) ==> f !in Run(s, es).families
    ensures code !in s.codesEver && Uncoded(es, code) ==> code !in Run(s, es).codesEver
    decreases |es|
  {
    if es != [] {
      StepDrawn(s, es[0], h, f, code);
      RunDrawn(Step(s, es[0]), es[1..], h, f, code);
      if Undrawn(es, h) {
        assert !Draws(es[0], h);
        forall i | 0 <= i < |es[1..]| ensures !Draws(es[1..][i], h) { assert es[1..][i] == es[i + 1]; }
      }
      if Unminted(es, f) {
        assert !Mints(es[0], f);
        forall i | 0 <= i < |es[1..]| ensures !Mints(es[1..][i], f) { assert es[1..][i] == es[i + 1]; }
      }
      if Uncoded(es, code) {
        assert !Codes(es[0], code);
        forall i | 0 <= i < |es[1..]| ensures !Codes(es[1..][i], code) { assert es[1..][i] == es[i + 1]; }
      }
    }
  }

  lemma CredentialsStep(s: State, r: RequestId, c: ClientId, scope: string)
    requires r !in s.flight && c in s.clients && s.clients[c].confidential
    ensures Words(scope) - {"offline_access"} <= Words(s.clients[c].scopes) <==> Allowed(s.clients[c], scope)
    ensures Allowed(s.clients[c], scope) ==>
      Step(s, Grant(Credentials(r, c, scope)))
      == s.(flight := s.flight[r := Redeemed(c, None, scope, ByCredentials, false)])
  {
  }

  /** What the checks of a request decide, in the words of the contract. */
  lemma RequestableExact(s: State, c: ClientId, q: AuthzRequest)
    ensures AcceptableRequest(s, c, q) <==> Requestable(s, c, q)
  {
  }

  // ---- consents ---------------------------------------------------------------------------------------------------

  /** No step is an approval by this user for this client, or deletes the client. */
  ghost predicate Untouched(es: seq<Event>, k: ConsentKey) {
    forall i :: 0 <= i < |es| ==> !Touches(es[i], k)
  }

  predicate Touches(e: Event, k: ConsentKey) {
    || (e.Authorization? && e.a.Approve? && ConsentKey(e.a.user, e.a.client) == k)
    || (e.Administer? && e.x == DeleteClient(k.client))
  }

  /** What the user agreed to stays on record, and stays the stored consent until the user approves something else or
      the client is deleted. */
  predicate ConsentKept(s: State, s': State, k: ConsentKey, replaced: bool) {
    s.consented <= s'.consented && (k in s.consents && !replaced ==>
      k in s'.consents && s'.consents[k] == s.consents[k])
  }

  lemma AuthorizationConsent(s: State, a: AuthorizationStep, k: ConsentKey)
    ensures ConsentKept(s, AuthorizationNext(s, a), k, Touches(Authorization(a), k))
  {
  }

  lemma GrantConsent(s: State, g: GrantStep, k: ConsentKey)
    ensures ConsentKept(s, GrantNext(s, g), k, false)
  {
  }

  lemma ResumeConsent(s: State, r: RequestId, p: Phase, x: Statement, k: ConsentKey)
    ensures ConsentKept(s, ResumeNext(s, r, p, x), k, false)
  {
    if !x.MintFamily? { ResumeStill(s, r, p, x); }
  }

  lemma ClientConsent(s: State, x: ClientStep, k: ConsentKey)
    ensures ConsentKept(s, ClientNext(s, x), k, x == DeleteClient(k.client))
  {
  }

  lemma StepConsent(s: State, e: Event, k: ConsentKey)
    ensures ConsentKept(s, Step(s, e), k, Touches(e, k))
  {
    match e {
      case Authorization(a) => AuthorizationConsent(s, a, k);
      case Grant(g) => GrantConsent(s, g, k);
      case Resume(r, x) => if r in s.flight { ResumeConsent(s, r, s.flight[r], x, k); }
      case Administer(x) => ClientConsent(s, x, k);
      case _ =>
    }
  }

  lemma {:induction false} RunConsent(s: State, es: seq<Event>, k: ConsentKey)
    ensures ConsentKept(s, Run(s, es), k, !Untouched(es, k))
    decreases |es|
  {
    if es != [] {
      StepConsent(s, es[0], k);
      RunConsent(Step(s, es[0]), es[1..], k);
      if Untouched(es, k) {
        assert !Touches(es[0], k);
        forall i | 0 <= i < |es[1..]| ensures !Touches(es[1..][i], k) { assert es[1..][i] == es[i + 1]; }
      }
    }
  }

  /** The code carries what the request that may issue it asked for. */
  predicate CodeFor(p: Phase, code: Code)
    requires p.MayIssue?
  {
    code.client == p.client && code.user == p.user && code.redirect == p.request.redirect
      && code.scope == p.request.scope
    && code.challenge == p.request.challenge
  }

  /** A refresh token goes out with a code whose user's scope has the word. */
  predicate GetsRefresh(p: Phase)
    requires p.Redeemed?
  {
    p.withRefresh && p.who.Some? && HasWord(p.scope, "offline_access")
  }

  function FirstTokens(p: Phase, access: Hash, refresh: Hash): Reply
    requires p.Redeemed?
  {
    Tokens(access, if GetsRefresh(p) then Some(refresh) else None, p.scope)
  }

  /** The tables, the values drawn so far, and the requests between two of their statements. */
  class Provider {
    var clients: map<ClientId, Client>
    var now: nat
    var consents: map<ConsentKey, string>
    var codes: map<Hash, Code>
    var tokens: map<Hash, Token>
    var flight: map<RequestId, Phase>
    var consented: set<Consent>
    var codesEver: map<Hash, Code>
    var families: map<Family, FamilyRecord>
    var issued: map<Hash, Issue>

    function View(): State
      reads this
    {
      State(clients, now, consents, codes, tokens, flight, consented, codesEver, families, issued)
    }

    constructor (clients: map<ClientId, Client>)
      ensures View() == Init(clients)
    {
      this.clients, now, consents, codes, tokens := clients, 0, map[], map[], map[];
      codesEver, families, issued := map[], map[], map[];
      flight, consented := map[], {};
    }

    /** Whatever other requests do in a gap. */
    method Others(es: seq<Event>, ghost r: RequestId)
      requires ByOthers(es, r)
      modifies this
      ensures View() == Run(old(View()), es)
      ensures r in old(flight) ==> r in flight && flight[r] == old(flight[r])
      ensures forall h :: h !in old(issued) && Undrawn(es, h) ==> h !in issued
      ensures forall f :: f !in old(families) && Unminted(es, f) ==> f !in families
      ensures forall h :: h !in old(codesEver) && Uncoded(es, h) ==> h !in codesEver
    {
      OthersLeave(View(), es, r);
      forall h, f, code
        ensures h !in issued && Undrawn(es, h) ==> h !in Run(View(), es).issued
        ensures f !in families && Unminted(es, f) ==> f !in Run(View(), es).families
        ensures code !in codesEver && Uncoded(es, code) ==> code !in Run(View(), es).codesEver
      {
        RunDrawn(View(), es, h, f, code);
      }
      var s := Run(View(), es);
      clients, now, consents, codes, tokens := s.clients, s.now, s.consents, s.codes, s.tokens;
      flight, consented, codesEver, families, issued := s.flight, s.consented, s.codesEver, s.families, s.issued;
    }

    // ---- statements -------------------------------------------------------------------------------

    /** DELETE FROM oauth_codes ... RETURNING, and the comparison of the row with the request. */
    method TakeCode(r: RequestId, c: ClientId, hash: Hash, verifier: string, redirect: string)
      returns (row: Option<Code>)
      requires r !in flight && c in clients && PkceShape(verifier)
      modifies this
      ensures View() == Step(old(View()), Grant(RedeemCode(r, c, hash, verifier, redirect)))
      ensures families == old(families) && issued == old(issued)
      ensures row == if hash in old(codes) && old(codes[hash]).expires > old(now) then Some(old(codes[hash])) else None
    {
      row := None;
      if hash in codes && codes[hash].expires > now {
        var code := codes[hash];
        row := Some(code);
        codes := map x | x in codes && x != hash :: codes[x];
        if CodeMatches(code, c, redirect, verifier) {
          flight := flight[r := Redeemed(c, Some(code.user), code.scope, ByCode(hash, redirect, verifier), true)];
        }
      }
    }

    /** UPDATE ... SET revoked_at ... WHERE the row is a live refresh token of this client, RETURNING. */
    method ClaimToken(r: RequestId, c: ClientId, hash: Hash) returns (row: Option<Token>)
      requires r !in flight && c in clients
      modifies this
      ensures View() == Step(old(View()), Grant(Claim(r, c, hash))) && issued == old(issued)
      ensures row == if ClaimMatches(old(View()), c, hash) then Some(old(tokens[hash])) else None
    {
      row := None;
      if hash in tokens && tokens[hash].kind == Refresh && tokens[hash].client == c && !tokens[hash].revoked
         && tokens[hash].expires > now
      {
        var k := tokens[hash];
        row := Some(k);
        tokens := tokens[hash := k.(revoked := true)];
        flight := flight[r := ClaimedBy(k, c, hash)];
      } else {
        flight := flight[r := Missed(c, hash)];
      }
    }

    /** UPDATE ... SET revoked_at WHERE family, by the rotation (after a claim) or by a replay. */
    method RevokeAll(r: RequestId, f: Family)
      requires r in flight
      requires (flight[r].Claimed? && flight[r].ticket.family == f) || flight[r] == Replaying(f)
      modifies this
      ensures View() == Step(old(View()), Resume(r, if old(flight[r]).Claimed? then Sweep else RevokeReplay))
      ensures issued == old(issued)
    {
      tokens := RevokeFamily(tokens, f);
      flight := if flight[r].Claimed? then flight[r := Swept(flight[r].ticket)] else Without(flight, r);
    }

    method FindRevoked(r: RequestId, c: ClientId, hash: Hash) returns (family: Option<Family>)
      requires r in flight && flight[r] == Missed(c, hash)
      modifies this
      ensures View() == Step(old(View()), Resume(r, LookupReplay))
      ensures family == if FindsReplay(old(View()), c, hash) then Some(old(tokens[hash]).family) else None
    {
      if hash in tokens && tokens[hash].kind == Refresh && tokens[hash].client == c && tokens[hash].revoked {
        family := Some(tokens[hash].family);
        flight := flight[r := Replaying(tokens[hash].family)];
      } else {
        family := None;
        flight := Without(flight, r);
      }
    }

    /** gen_random_uuid(); a value drawn before counts as a failed statement. */
    method NewFamily(r: RequestId, f: Family) returns (ok: bool)
      requires r in flight && flight[r].Redeemed?
      modifies this
      ensures View() == Step(old(View()), Resume(r, MintFamily(f))) && issued == old(issued)
      ensures ok <==> f !in old(families)
      ensures var p := old(flight[r]);
        ok ==> r in flight && flight[r] == Ready(Ticket(p.caller, p.who, p.scope, f, Birth(f), p.withRefresh))
      ensures !ok ==> View() == old(View())
    {
      ok := f !in families;
      if ok {
        var p := flight[r];
        families := families[f := FamilyRecord(p.caller, p.caller.tenant, p.who, p.scope, p.origin)];
        flight := flight[r := Ready(Ticket(p.caller, p.who, p.scope, f, Birth(f), p.withRefresh))];
      }
    }

    method Membership(r: RequestId, active: bool)
      requires r in flight && flight[r].Swept?
      modifies this
      ensures View() == Step(old(View()), Resume(r, CheckActive(active))) && issued == old(issued)
      ensures active ==> r in flight && flight[r] == Ready(old(flight[r]).ticket)
      ensures !active ==> r !in flight
    {
      flight := if active then flight[r := Ready(flight[r].ticket)] else Without(flight, r);
    }

    /** INSERT INTO oauth_tokens. */
    method InsertToken(r: RequestId, hash: Hash, t: Ticket, kind: Kind) returns (ok: bool)
      requires r in flight && flight[r] == if kind == Access then Ready(t) else AccessOut(t)
      modifies this
      ensures View() == Step(old(View()), Resume(r, if kind == Access then InsertAccess(hash) else InsertRefresh(hash)))
      ensures ok <==> hash !in old(issued)
      ensures issued == if ok then old(issued)[hash := Issue(kind, t.family, t.slot)] else old(issued)
      ensures ok && kind == Access && WantsRefresh(t) ==> r in flight && flight[r] == AccessOut(t)
      ensures ok && !(kind == Access && WantsRefresh(t)) ==> r !in flight
      ensures !ok ==> View() == old(View())
    {
      ok := hash !in issued;
      if ok {
        tokens := tokens[hash := NewToken(View(), t, kind)];
        issued := issued[hash := Issue(kind, t.family, t.slot)];
        flight := if kind == Access && WantsRefresh(t) then flight[r := AccessOut(t)] else Without(flight, r);
      }
    }

    /** The handler returns early: the request is gone. */
    method Drop(r: RequestId)
      modifies this
      ensures View() == Step(old(View()), Event.Fail(r)) && r !in flight
    {
      flight := Without(flight, r);
    }

    /** The checks of a parsed authorization request against the client it names. */
    method CheckRequest(c: ClientId, q: AuthzRequest) returns (ok: bool)
      ensures ok <==> AcceptableRequest(View(), c, q) && Requestable(View(), c, q)
      ensures !ok ==> !Requestable(View(), c, q)
    {
      RequestableExact(View(), c, q);
      if c !in clients || q.redirect !in clients[c].redirects { return false; }
      var words := Fields(q.scope);
      for i := 0 to |words|
        invariant forall k :: 0 <= k < i ==> words[k] in KNOWN_SCOPES
      {
        if words[i] !in KNOWN_SCOPES {
          assert words[i] in Words(q.scope);
          return false;
        }
      }
      assert Words(q.scope) <= KNOWN_SCOPES;
      ok := AllowsScope(clients[c].scopes, q.scope);
    }

    /** INSERT INTO oauth_codes. */
    method InsertCode(r: RequestId, hash: Hash) returns (ok: bool)
      requires r in flight && flight[r].MayIssue?
      modifies this
      ensures View() == Step(old(View()), Authorization(IssueCode(r, hash)))
      ensures ok <==> hash !in old(codesEver)
      ensures ok ==> r !in flight && hash in codes && CodeFor(old(flight[r]), codes[hash])
      ensures !ok ==> View() == old(View())
    {
      ok := hash !in codesEver;
      if ok {
        var p := flight[r];
        var q := p.request;
        var code := Code(p.client, p.client.tenant, p.user, q.redirect, q.scope, q.challenge, now + CODE_TTL);
        codes := codes[hash := code];
        codesEver := codesEver[hash := code];
        flight := Without(flight, r);
      }
    }

    // ---- handlers ---------------------------------------------------------------------------------

    /** issueCode, after a gap; the request is over either way. */
    method SendCode(r: RequestId, hash: Hash, gap: seq<Event>, ghost k: ConsentKey)
      returns (ok: bool, ghost trace: seq<Event>)
      requires r in flight && flight[r].MayIssue? && ByOthers(gap, r)
      modifies this
      ensures View() == Run(old(View()), trace) && r !in flight
      ensures ConsentKept(old(View()), View(), k, !Untouched(gap, k))
      ensures ok ==> hash in codes && CodeFor(old(flight[r]), codes[hash])
      ensures hash !in old(codesEver) && Uncoded(gap, hash) ==> ok
    {
      ghost var s0 := View();
      RunConsent(s0, gap, k);
      Others(gap, r);
      ghost var s1 := View();
      StepConsent(s1, Authorization(IssueCode(r, hash)), k);
      ok := InsertCode(r, hash);
      trace := Then(s0, gap, Authorization(IssueCode(r, hash)));
      if !ok {
        trace := Then(s0, trace, Event.Fail(r));
        Drop(r);
      }
    }

    /** Authorize: a code straight away only for a member whose earlier consent covers every scope asked for. */
    method Authorize(r: RequestId, u: User, c: ClientId, q: AuthzRequest, member: bool, prompt: bool, hash: Hash,
                     gap: seq<Event>)
      returns (issued: bool, ghost trace: seq<Event>)
      requires r !in flight && ByOthers(gap, r)
      modifies this
      ensures View() == Run(old(View()), trace) && r !in flight
      ensures var may := Requestable(old(View()), c, q) && member && !prompt && ConsentKey(u, c) in old(consents)
                         && Words(q.scope) <= Words(old(consents[ConsentKey(u, c)]));
        && (issued ==> may) && (!may ==> View() == old(View()))
        && (may && hash !in old(codesEver) && Uncoded(gap, hash) ==> issued)
      ensures issued ==> hash in codes && CodeFor(MayIssue(u, c, q), codes[hash])
    {
      ghost var s0 := View();
      ghost var first := Authorization(AuthorizationStep.Authorize(r, u, c, q, member, prompt));
      trace := [];
      var ok := CheckRequest(c, q);
      if !ok || !member || prompt || ConsentKey(u, c) !in consents { return false, []; }
      ok := ScopeSubset(q.scope, consents[ConsentKey(u, c)]);
      if !ok { return false, []; }
      flight := flight[r := MayIssue(u, c, q)];
      assert View() == Step(s0, first);
      ghost var rest := [];
      issued, rest := SendCode(r, hash, gap, ConsentKey(u, c));
      RunOne(s0, first);
      RunConcat(s0, [first], rest);
      trace := [first] + rest;
    }

    /** Consent: an approval by a member replaces the stored consent and then gives a code. */
    method Approve(r: RequestId, u: User, c: ClientId, q: AuthzRequest, member: bool, hash: Hash, gap: seq<Event>)
      returns (issued: bool, ghost trace: seq<Event>)
      requires r !in flight && ByOthers(gap, r)
      modifies this
      ensures View() == Run(old(View()), trace) && r !in flight
      ensures var may := Requestable(old(View()), c, q) && member;
        && (issued ==> may) && (!may ==> View() == old(View()))
        && (may && hash !in old(codesEver) && Uncoded(gap, hash) ==> issued)
      ensures issued ==> hash in codes && CodeFor(MayIssue(u, c, q), codes[hash])
      ensures Requestable(old(View()), c, q) && member ==> Consent(u, c, q.scope) in consented
      ensures Requestable(old(View()), c, q) && member && Untouched(gap, ConsentKey(u, c)) ==>
        ConsentKey(u, c) in consents && consents[ConsentKey(u, c)] == q.scope
    {
      ghost var s0 := View();
      ghost var first := Authorization(AuthorizationStep.Approve(r, u, c, q, member));
      trace := [];
      var ok := CheckRequest(c, q);
      if !ok || !member { return false, []; }
      consents := consents[ConsentKey(u, c) := q.scope];
      consented := consented + {Consent(u, c, q.scope)};
      flight := flight[r := MayIssue(u, c, q)];
      assert View() == Step(s0, first);
      ghost var rest := [];
      issued, rest := SendCode(r, hash, gap, ConsentKey(u, c));
      RunOne(s0, first);
      RunConcat(s0, [first], rest);
      trace := [first] + rest;
    }

    /** respondTokensFamily: the access token, a gap, and the refresh token if the scope asks for one. */
    method Respond(r: RequestId, t: Ticket, access: Hash, refresh: Hash, gap: seq<Event>)
      returns (reply: Reply, ghost trace: seq<Event>)
      requires r in flight && flight[r] == Ready(t) && ByOthers(gap, r)
      modifies this
      ensures View() == Run(old(View()), trace) && r !in flight
      ensures reply.Tokens? || reply.ServerError?
      ensures reply == ServerError ==>
        access in old(issued)
        || (WantsRefresh(t) && (refresh in old(issued) || access == refresh || !Undrawn(gap, refresh)))
      ensures reply.Tokens? ==> reply == Tokens(access, if WantsRefresh(t) then Some(refresh) else None, t.scope)
      ensures reply.Tokens? ==> access in issued && issued[access] == Issue(Access, t.family, t.slot)
      ensures reply.Tokens? && WantsRefresh(t) ==>
        refresh in issued && issued[refresh] == Issue(Refresh, t.family, t.slot)
    {
      var ok := InsertToken(r, access, t, Access);
      trace := [Resume(r, InsertAccess(access))];
      RunOne(old(View()), trace[0]);
      if !ok {
        trace := Then(old(View()), trace, Event.Fail(r));
        Drop(r);
        return ServerError, trace;
      }
      if !WantsRefresh(t) {
        return Tokens(access, None, t.scope), trace;
      }
      RunConcat(old(View()), trace, gap);
      IssuedStaysRun(View(), gap, access);
      Others(gap, r);
      trace := trace + gap;
      ok := InsertToken(r, refresh, t, Refresh);
      trace := Then(old(View()), trace, Resume(r, InsertRefresh(refresh)));
      if !ok {
        trace := Then(old(View()), trace, Event.Fail(r));
        Drop(r);
        return ServerError, trace;
      }
      return Tokens(access, Some(refresh), t.scope), trace;
    }

    /** What follows an accepted code or secret: a new family and its first tokens. */
    method StartFamily(r: RequestId, family: Family, access: Hash, refresh: Hash, env: seq<seq<Event>>)
      returns (reply: Reply, ghost trace: seq<Event>)
      requires r in flight && flight[r].Redeemed? && Gaps(env, r, 3)
      modifies this
      ensures View() == Run(old(View()), trace) && r !in flight
      ensures reply == ServerError || reply == FirstTokens(old(flight[r]), access, refresh)
      ensures reply == ServerError ==>
        !(UnusedFamily(old(View()), env, family) && UnusedToken(old(View()), env, access)
          && (GetsRefresh(old(flight[r])) ==> UnusedToken(old(View()), env, refresh) && access != refresh))
      ensures reply.Tokens? ==> access in issued && issued[access] == Issue(Access, family, Birth(family))
      ensures reply.Tokens? && reply.refresh.Some? ==>
        refresh in issued && issued[refresh] == Issue(Refresh, family, Birth(family))
    {
      ghost var s0 := View();
      var p := flight[r];
      Others(env[0], r);
      trace := Then(s0, env[0], Resume(r, MintFamily(family)));
      var ok := NewFamily(r, family);
      if !ok {
        trace := Then(s0, trace, Event.Fail(r));
        Drop(r);
        return ServerError, trace;
      }
      RunConcat(s0, trace, env[1]);
      Others(env[1], r);
      trace := trace + env[1];
      ghost var rest := [];
      var t := Ticket(p.caller, p.who, p.scope, family, Birth(family), p.withRefresh);
      reply, rest := Respond(r, t, access, refresh, env[2]);
      RunConcat(s0, trace, rest);
      trace := trace + rest;
    }

    /** grantCode. */
    method GrantCode(r: RequestId, c: ClientId, code: Hash, verifier: string, redirect: string,
                     family: Family, access: Hash, refresh: Hash, env: seq<seq<Event>>)
      returns (reply: Reply, ghost trace: seq<Event>)
      requires r !in flight && c in clients && Gaps(env, r, 3)
      modifies this
      ensures View() == Run(old(View()), trace) && r !in flight
      ensures reply == InvalidRequest <==> !WellShaped(verifier)
      ensures reply == InvalidRequest ==> View() == old(View())
      ensures reply == InvalidGrant <==>
        WellShaped(verifier) && !Redeemable(old(View()), c, code, verifier, redirect)
      ensures reply == InvalidRequest || reply == InvalidGrant || reply.Tokens? || reply == ServerError
      ensures reply == ServerError ==>
        !(UnusedFamily(old(View()), env, family) && UnusedToken(old(View()), env, access)
          && UnusedToken(old(View()), env, refresh) && access != refresh)
      ensures reply.Tokens? ==> code in old(codes) && reply.scope == old(codes[code]).scope
      ensures reply.Tokens? ==>
        reply.access == access && access in issued && issued[access] == Issue(Access, family, Birth(family))
      ensures reply.Tokens? ==> reply.refresh == if HasWord(reply.scope, "offline_access") then Some(refresh) else None
      ensures reply.Tokens? && reply.refresh.Some? ==>
        refresh in issued && issued[refresh] == Issue(Refresh, family, Birth(family))
    {
      ghost var s0 := View();
      Shapes(verifier);
      trace := [];
      if !PkceShape(verifier) {
        return InvalidRequest, trace;
      }
      var row := TakeCode(r, c, code, verifier, redirect);
      trace := Then(s0, trace, Grant(RedeemCode(r, c, code, verifier, redirect)));
      if row.None? || !CodeMatches(row.value, c, redirect, verifier) {
        return InvalidGrant, trace;
      }
      ghost var rest := [];
      reply, rest := StartFamily(r, family, access, refresh, env);
      RunConcat(s0, trace, rest);
      trace := trace + rest;
    }

    /** The client_credentials case of Token; no scope asked for means tenant. */
    method GrantCredentials(r: RequestId, c: ClientId, asked: string, family: Family, access: Hash,
                            env: seq<seq<Event>>)
      returns (reply: Reply, ghost scope: string, ghost trace: seq<Event>)
      requires r !in flight && c in clients && Gaps(env, r, 2)
      modifies this
      ensures scope == if asked == "" then "tenant" else asked
      ensures View() == Run(old(View()), trace) && r !in flight
      ensures reply == UnauthorizedClient <==> !old(clients[c]).confidential
      ensures reply == InvalidScope <==> old(clients[c]).confidential && !Allowed(old(clients[c]), scope)
      ensures reply == UnauthorizedClient || reply == InvalidScope ==> View() == old(View())
      ensures reply == UnauthorizedClient || reply == InvalidScope || reply == ServerError
              || reply == Tokens(access, None, scope)
      ensures reply == ServerError ==>
        !(UnusedFamily(old(View()), env, family) && UnusedToken(old(View()), env, access))
      ensures reply.Tokens? ==> access in issued && issued[access] == Issue(Access, family, Birth(family))
    {
      scope := if asked == "" then "tenant" else asked;
      if !clients[c].confidential { return UnauthorizedClient, scope, []; }
      if asked == "" {
        reply, trace := AcceptCredentials(r, c, "tenant", family, access, env);
      } else {
        reply, trace := AcceptCredentials(r, c, asked, family, access, env);
      }
    }

    method AcceptCredentials(r: RequestId, c: ClientId, scope: string, family: Family, access: Hash,
                             env: seq<seq<Event>>)
      returns (reply: Reply, ghost trace: seq<Event>)
      requires r !in flight && c in clients && clients[c].confidential && Gaps(env, r, 2)
      modifies this
      ensures View() == Run(old(View()), trace) && r !in flight
      ensures reply == InvalidScope <==> !Allowed(old(clients[c]), scope)
      ensures reply == InvalidScope ==> View() == old(View())
      ensures reply == InvalidScope || reply == ServerError || reply == Tokens(access, None, scope)
      ensures reply == ServerError ==>
        !(UnusedFamily(old(View()), env, family) && UnusedToken(old(View()), env, access))
      ensures reply.Tokens? ==> access in issued && issued[access] == Issue(Access, family, Birth(family))
    {
      ghost var s0 := View();
      CredentialsStep(s0, r, c, scope);
      var ok := AllowsScope(clients[c].scopes, scope);
      if !ok { return InvalidScope, []; }
      flight := flight[r := Redeemed(c, None, scope, ByCredentials, false)];
      RunOne(s0, Grant(Credentials(r, c, scope)));
      ghost var rest := [];
      reply, rest := StartFamily(r, family, access, access, env + [[]]);
      trace := [Grant(Credentials(r, c, scope))] + rest;
      RunConcat(s0, [Grant(Credentials(r, c, scope))], rest);
    }

    /** The claim matched no row: look for a revoked one and, if found, revoke its family. */
    method ReplayPath(r: RequestId, c: ClientId, token: Hash, gap: seq<Event>) returns (ghost trace: seq<Event>)
      requires r in flight && flight[r] == Missed(c, token) && ByOthers(gap, r)
      modifies this
      ensures View() == Run(old(View()), trace) && r !in flight
      ensures trace == if UsedUp(old(View()), c, token)
                       then [Resume(r, LookupReplay)] + gap + [Resume(r, RevokeReplay)] else [Resume(r, LookupReplay)]
    {
      ghost var s0 := View();
      var found := FindRevoked(r, c, token);
      trace := [Resume(r, LookupReplay)];
      RunOne(s0, trace[0]);
      if found.Some? {
        RunConcat(s0, trace, gap);
        Others(gap, r);
        trace := trace + gap;
        RevokeAll(r, found.value);
        trace := Then(s0, trace, Resume(r, RevokeReplay));
      }
    }

    /** The claim succeeded: revoke the rest of the family, check membership, insert the new tokens. */
    method Rotate(r: RequestId, t: Ticket, active: bool, access: Hash, refresh: Hash, env: seq<seq<Event>>)
      returns (reply: Reply, ghost trace: seq<Event>)
      requires r in flight && flight[r] == Claimed(t) && Gaps(env, r, 3)
      modifies this
      ensures View() == Run(old(View()), trace) && r !in flight
      ensures reply == InvalidGrant <==> !active
      ensures reply == InvalidGrant || reply.Tokens? || reply == ServerError
      ensures reply == ServerError ==>
        !(UnusedToken(old(View()), env, access) && UnusedToken(old(View()), env, refresh) && access != refresh)
      ensures reply.Tokens? ==> reply == Tokens(access, if WantsRefresh(t) then Some(refresh) else None, t.scope)
      ensures reply.Tokens? ==> access in issued && issued[access] == Issue(Access, t.family, t.slot)
      ensures reply.Tokens? && reply.refresh.Some? ==> reply.refresh == Some(refresh) && refresh in issued
                                                       && issued[refresh] == Issue(Refresh, t.family, t.slot)
    {
      ghost var s0 := View();
      RevokeAll(r, t.family);
      trace := [Resume(r, Sweep)];
      RunOne(s0, trace[0]);
      RunConcat(s0, trace, env[0]);
      Others(env[0], r);
      trace := trace + env[0];
      Membership(r, active);
      trace := Then(s0, trace, Resume(r, CheckActive(active)));
      if !active {
        return InvalidGrant, trace;
      }
      RunConcat(s0, trace, env[1]);
      Others(env[1], r);
      trace := trace + env[1];
      ghost var rest := [];
      reply, rest := Respond(r, t, access, refresh, env[2]);
      RunConcat(s0, trace, rest);
      trace := trace + rest;
    }

    /** The statements of grantRefresh. */
    method ClaimOrReplay(r: RequestId, c: ClientId, token: Hash, active: bool, access: Hash, refresh: Hash,
                         env: seq<seq<Event>>)
      returns (reply: Reply, ghost trace: seq<Event>)
      requires r !in flight && c in clients && Gaps(env, r, 4)
      modifies this
      ensures View() == Run(old(View()), trace) && r !in flight
      ensures reply == InvalidGrant <==> !Rotatable(old(View()), c, token) || !active
      ensures reply == InvalidGrant || reply.Tokens? || reply == ServerError
      ensures reply == ServerError ==>
        !(UnusedToken(old(View()), env, access) && UnusedToken(old(View()), env, refresh) && access != refresh)
      ensures reply.Tokens? ==> token in old(tokens)
      ensures reply.Tokens? ==>
        var k := old(tokens[token]);
        && reply == Tokens(access, if k.user.Some? && HasWord(k.scope, "offline_access") then Some(refresh) else None,
                           k.scope)
        && access in issued && issued[access] == Issue(Access, k.family, After(token))
        && (reply.refresh.Some? ==> refresh in issued && issued[refresh] == Issue(Refresh, k.family, After(token)))
      ensures var claimed := Run(Step(old(View()), Grant(Claim(r, c, token))), env[0]);
        !Rotatable(old(View()), c, token) ==>
          trace == if UsedUp(claimed, c, token) then ReplaySteps(r, c, token, env[0], env[1])
                   else [Grant(Claim(r, c, token))] + env[0] + [Resume(r, LookupReplay)]
    {
      ghost var s0 := View();
      var row := ClaimToken(r, c, token);
      trace := [Grant(Claim(r, c, token))];
      RunOne(s0, trace[0]);
      RunConcat(s0, trace, env[0]);
      Others(env[0], r);
      trace := trace + env[0];
      ghost var rest := [];
      if row.None? {
        rest := ReplayPath(r, c, token, env[1]);
        reply := InvalidGrant;
      } else {
        var k := row.value;
        assert Gaps(env[1..], r, 3);
        reply, rest := Rotate(r, Ticket(c, k.user, k.scope, k.family, After(token), true), active, access, refresh,
          env[1..]);
      }
      RunConcat(s0, trace, rest);
      trace := trace + rest;
    }

    /** grantRefresh: the claim, and then the rotation or the replay path. A used-up token that is presented again ends
        its family for good exactly when no request holds the family at the revocation. */
    method GrantRefresh(r: RequestId, c: ClientId, token: Hash, active: bool, access: Hash, refresh: Hash,
                        env: seq<seq<Event>>)
      returns (reply: Reply, ghost trace: seq<Event>)
      requires r !in flight && c in clients && Gaps(env, r, 4)
      modifies this
      ensures View() == Run(old(View()), trace) && r !in flight
      ensures reply == InvalidGrant <==> !Rotatable(old(View()), c, token) || !active
      ensures reply == InvalidGrant || reply.Tokens? || reply == ServerError
      ensures reply == ServerError ==>
        !(UnusedToken(old(View()), env, access) && UnusedToken(old(View()), env, refresh) && access != refresh)
      ensures reply.Tokens? ==> token in old(tokens)
      ensures reply.Tokens? ==>
        var k := old(tokens[token]);
        && reply == Tokens(access, if k.user.Some? && HasWord(k.scope, "offline_access") then Some(refresh) else None,
                           k.scope)
        && access in issued && issued[access] == Issue(Access, k.family, After(token))
        && (reply.refresh.Some? ==> refresh in issued && issued[refresh] == Issue(Refresh, k.family, After(token)))
      ensures var claimed := Run(Step(old(View()), Grant(Claim(r, c, token))), env[0]);
        !Rotatable(old(View()), c, token) ==>
          trace == if UsedUp(claimed, c, token) then ReplaySteps(r, c, token, env[0], env[1])
                   else [Grant(Claim(r, c, token))] + env[0] + [Resume(r, LookupReplay)]
      ensures var claimed := Run(Step(old(View()), Grant(Claim(r, c, token))), env[0]);
        TokenInv(old(View())) && !Rotatable(old(View()), c, token) && UsedUp(claimed, c, token) ==>
          (NeverLive(View(), claimed.tokens[token].family) <==>
           Holders(Run(Step(claimed, Resume(r, LookupReplay)), env[1]), claimed.tokens[token].family) == {})
    {
      ghost var s0 := View();
      reply, trace := ClaimOrReplay(r, c, token, active, access, refresh, env);
      ReplayConcludes(s0, r, c, token, env[0], env[1]);
    }

    /** Revoke: one statement, always answered with success. */
    method RevokeToken(c: ClientId, token: Hash)
      requires c in clients
      modifies this
      ensures View() == Step(old(View()), Event.Revoke(c, token))
    {
      if token in tokens {
        var f := tokens[token].family;
        tokens := map x | x in tokens ::
          if tokens[x].client == c && tokens[x].family == f then tokens[x].(revoked := true) else tokens[x];
      }
    }

    /** lookupAccess. */
    method LookupAccess(token: Hash, active: bool) returns (info: Option<Token>)
      ensures info.Some? <==>
        && active && token in tokens && tokens[token].kind == Access && !tokens[token].revoked
        && now < tokens[token].expires
      ensures info.Some? <==> AccessAccepted(View(), token, active)
      ensures info.Some? ==> info == Some(tokens[token])
    {
      if token in tokens && tokens[token].kind == Access && !tokens[token].revoked && tokens[token].expires > now
         && active
      {
        return Some(tokens[token]);
      }
      return None;
    }
  }

  lemma ReplayTrace(s: State, r: RequestId, gap: seq<Event>)
    ensures Run(s, [Resume(r, LookupReplay)] + gap + [Resume(r, RevokeReplay)]) ==
      Step(Run(Step(s, Resume(r, LookupReplay)), gap), Resume(r, RevokeReplay))
  {
    var looked := [Resume(r, LookupReplay)];
    RunConcat(s, looked + gap, [Resume(r, RevokeReplay)]);
    RunConcat(s, looked, gap);
    RunOne(s, looked[0]);
    RunOne(Run(s, looked + gap), Resume(r, RevokeReplay));
  }

  /** The steps of a refresh request whose token is not claimed and turns out used up. */
  function ReplaySteps(r: RequestId, c: ClientId, h: Hash, es1: seq<Event>, es2: seq<Event>): seq<Event> {
    [Grant(Claim(r, c, h))] + es1 + [Resume(r, LookupReplay)] + es2 + [Resume(r, RevokeReplay)]
  }

  lemma ReplayConcludes(s: State, r: RequestId, c: ClientId, h: Hash, es1: seq<Event>, es2: seq<Event>)
    requires r !in s.flight && c in s.clients && ByOthers(es1, r) && ByOthers(es2, r)
    ensures var claimed := Run(Step(s, Grant(Claim(r, c, h))), es1);
      TokenInv(s) && !Rotatable(s, c, h) && UsedUp(claimed, c, h) ==>
        (NeverLive(Run(s, ReplaySteps(r, c, h, es1, es2)), claimed.tokens[h].family) <==>
         Holders(Run(Step(claimed, Resume(r, LookupReplay)), es2), claimed.tokens[h].family) == {})
  {
    var claimed := Run(Step(s, Grant(Claim(r, c, h))), es1);
    if TokenInv(s) && !Rotatable(s, c, h) && UsedUp(claimed, c, h) {
      ReplayKills(s, r, c, h, es1, es2);
      ReplayRun(s, r, c, h, es1, es2);
    }
  }

  lemma ReplayRun(s: State, r: RequestId, c: ClientId, h: Hash, es1: seq<Event>, es2: seq<Event>)
    ensures Run(s, ReplaySteps(r, c, h, es1, es2)) ==
      Step(Run(Step(Run(Step(s, Grant(Claim(r, c, h))), es1), Resume(r, LookupReplay)), es2), Resume(r, RevokeReplay))
  {
    var claim, rest := [Grant(Claim(r, c, h))], [Resume(r, LookupReplay)] + es2 + [Resume(r, RevokeReplay)];
    assert ReplaySteps(r, c, h, es1, es2) == claim + es1 + rest;
    RunConcat(s, claim + es1, rest);
    RunConcat(s, claim, es1);
    RunOne(s, claim[0]);
    ReplayTrace(Run(s, claim + es1), r, es2);
  }

  /** A trace extended by one step. */
  ghost function Then(s: State, trace: seq<Event>, e: Event): (longer: seq<Event>)
    ensures Run(s, longer) == Step(Run(s, trace), e)
  {
    RunConcat(s, trace, [e]);
    RunOne(Run(s, trace), e);
    trace + [e]
  }
}
