/** What every step of the token machine keeps, whatever the interleaving: one ticket per family,
    one successor per refresh token, and rows that agree with the record of their family. */
module TokenInvariants {
  import opened TokenMachine

  predicate Holding(p: Phase) {
    p.Claimed? || p.Swept? || p.Ready? || p.AccessOut?
  }

  predicate Cleared(p: Phase) {
    p.Swept? || p.Ready?
  }

  predicate Holds(s: State, r: RequestId, f: Family) {
    r in s.flight && Holding(s.flight[r]) && s.flight[r].ticket.family == f
  }

  predicate Live(s: State, h: Hash, kind: Kind, f: Family) {
    h in s.tokens && !s.tokens[h].revoked && s.tokens[h].kind == kind && s.tokens[h].family == f
  }

  /** No row of this hash can be claimed again. */
  predicate Spent(s: State, h: Hash) {
    h in s.tokens ==> s.tokens[h].revoked
  }

  /** The slot lies in the family, and the refresh token before it has been spent. */
  predicate SlotIn(s: State, slot: Slot, f: Family) {
    match slot
    case Birth(f') => f' == f
    case After(h) => h in s.issued && s.issued[h].kind == Refresh && s.issued[h].family == f && Spent(s, h)
  }

  predicate TokenKnown(s: State, h: Hash) {
    h in s.tokens ==>
      var k := s.tokens[h];
      && h in s.issued && s.issued[h].family == k.family && s.issued[h].kind == k.kind
      && k.family in s.families
      && s.families[k.family] == FamilyRecord(k.client, k.tenant, k.user, k.scope, s.families[k.family].origin)
  }

  predicate TicketKnown(s: State, r: RequestId) {
    r in s.flight && Holding(s.flight[r]) ==>
      var t := s.flight[r].ticket;
      && t.family in s.families
      && s.families[t.family] == FamilyRecord(t.client, t.client.tenant, t.user, t.scope,
        s.families[t.family].origin)
      && SlotIn(s, t.slot, t.family)
  }

  predicate IssueKnown(s: State, h: Hash) {
    h in s.issued ==> s.issued[h].family in s.families && SlotIn(s, s.issued[h].slot, s.issued[h].family)
  }

  predicate FamilyKnown(s: State, f: Family) {
    f in s.families ==> s.families[f].tenant == s.families[f].client.tenant
  }

  ghost predicate Known(s: State) {
    && (forall h :: TokenKnown(s, h))
    && (forall r :: TicketKnown(s, r))
    && (forall h :: IssueKnown(s, h))
    && (forall f :: FamilyKnown(s, f))
  }

  /** No two requests hold the same family; while one does, no refresh token of it is live, and after
      the sweep no access token either until the holder inserts one. */
  ghost predicate Exclusive(s: State, f: Family) {
    && (forall r1, r2 :: Holds(s, r1, f) && Holds(s, r2, f) ==> r1 == r2)
    && (forall h1, h2 :: Live(s, h1, Refresh, f) && Live(s, h2, Refresh, f) ==> h1 == h2)
    && (forall h1, h2 :: Live(s, h1, Access, f) && Live(s, h2, Access, f) ==> h1 == h2)
    && (forall r, h :: Holds(s, r, f) ==> !Live(s, h, Refresh, f))
    && (forall r, h :: Holds(s, r, f) && Cleared(s.flight[r]) ==> !Live(s, h, Access, f))
  }

  predicate Fills(s: State, h: Hash, kind: Kind, slot: Slot) {
    h in s.issued && s.issued[h].kind == kind && s.issued[h].slot == slot
  }

  /** A slot takes at most one token of each kind, and a ticket's slot is still free for what it will insert. */
  ghost predicate SlotsOnce(s: State) {
    && (forall h1, h2, k, slot :: Fills(s, h1, k, slot) && Fills(s, h2, k, slot) ==> h1 == h2)
    && (forall r, h :: r in s.flight && Holding(s.flight[r]) ==> !Fills(s, h, Refresh, s.flight[r].ticket.slot))
    && (forall r, h :: r in s.flight && Holding(s.flight[r]) && !s.flight[r].AccessOut?
          ==> !Fills(s, h, Access, s.flight[r].ticket.slot))
  }

  ghost predicate TokenInv(s: State) {
    Known(s) && SlotsOnce(s) && forall f :: Exclusive(s, f)
  }

  // ---- steps that hand out no ticket and make no token live --------------------------------------

  predicate NeutralRow(s: State, s': State, h: Hash) {
    h in s'.tokens ==> h in s.tokens && (s'.tokens[h] == s.tokens[h] || s'.tokens[h] == s.tokens[h].(revoked := true))
  }

  predicate NeutralPhase(s: State, s': State, r: RequestId) {
    r in s'.flight && Holding(s'.flight[r]) ==>
      && r in s.flight && Holding(s.flight[r]) && s'.flight[r].ticket == s.flight[r].ticket
      && (Cleared(s'.flight[r]) ==> Cleared(s.flight[r]))
      && (s.flight[r].AccessOut? ==> s'.flight[r].AccessOut?)
  }

  ghost predicate Neutral(s: State, s': State) {
    && s'.families == s.families && s'.issued == s.issued
    && (forall h :: NeutralRow(s, s', h))
    && (forall r :: NeutralPhase(s, s', r))
  }

  lemma NeutralKeeps(s: State, s': State)
    requires TokenInv(s) && Neutral(s, s')
    ensures TokenInv(s')
  {
    forall h ensures Spent(s, h) ==> Spent(s', h) { assert NeutralRow(s, s', h); }
    forall slot, f ensures SlotIn(s, slot, f) ==> SlotIn(s', slot, f) {}
    forall h ensures TokenKnown(s', h) { assert NeutralRow(s, s', h) && TokenKnown(s, h); }
    forall r ensures TicketKnown(s', r) { assert NeutralPhase(s, s', r) && TicketKnown(s, r); }
    forall h ensures IssueKnown(s', h) { assert IssueKnown(s, h); }
    forall f ensures FamilyKnown(s', f) { assert FamilyKnown(s, f); }
    forall f ensures Exclusive(s', f) { NeutralExclusive(s, s', f); }
    NeutralSlots(s, s');
  }

  lemma NeutralExclusive(s: State, s': State, f: Family)
    requires Exclusive(s, f) && Neutral(s, s')
    ensures Exclusive(s', f)
  {
    forall h, k ensures Live(s', h, k, f) ==> Live(s, h, k, f) { assert NeutralRow(s, s', h); }
    forall r ensures Holds(s', r, f) ==> Holds(s, r, f) && (Cleared(s'.flight[r]) ==> Cleared(s.flight[r])) {
      assert NeutralPhase(s, s', r);
    }
  }

  lemma NeutralSlots(s: State, s': State)
    requires SlotsOnce(s) && Neutral(s, s')
    ensures SlotsOnce(s')
  {
    assert forall h, k, slot :: Fills(s', h, k, slot) <==> Fills(s, h, k, slot);
    forall r | r in s'.flight && Holding(s'.flight[r])
      ensures r in s.flight && Holding(s.flight[r]) && s'.flight[r].ticket == s.flight[r].ticket
      ensures s.flight[r].AccessOut? ==> s'.flight[r].AccessOut?
    {
      assert NeutralPhase(s, s', r);
    }
  }

  lemma AuthorizationNeutral(s: State, a: AuthorizationStep)
    ensures Neutral(s, AuthorizationNext(s, a))
  {
  }

  lemma RedeemNeutral(s: State, r: RequestId, c: ClientId, h: Hash, verifier: string, redirect: string)
    requires h in s.codes
    ensures Neutral(s, DoRedeem(s, r, c, h, verifier, redirect))
  {
    var s' := DoRedeem(s, r, c, h, verifier, redirect);
    forall x ensures NeutralRow(s, s', x) {}
    forall q ensures NeutralPhase(s, s', q) {}
  }

  lemma MissNeutral(s: State, r: RequestId, c: ClientId, h: Hash)
    requires !ClaimMatches(s, c, h)
    ensures Neutral(s, DoClaim(s, r, c, h))
  {
  }

  lemma LandNeutral(s: State, r: RequestId)
    ensures Neutral(s, Land(s, r))
  {
  }

  lemma LookupNeutral(s: State, r: RequestId, p: Phase)
    requires p.Missed?
    ensures Neutral(s, DoLookupReplay(s, r, p))
  {
    var s' := DoLookupReplay(s, r, p);
    assert s'.tokens == s.tokens;
    forall q ensures NeutralPhase(s, s', q) {}
  }

  lemma ReplayNeutral(s: State, r: RequestId, f: Family)
    ensures Neutral(s, DoRevokeReplay(s, r, f))
  {
  }

  lemma CheckNeutral(s: State, r: RequestId, t: Ticket, active: bool)
    requires r in s.flight && s.flight[r] == Swept(t)
    ensures Neutral(s, DoCheck(s, r, t, active))
  {
  }

  lemma RevokeNeutral(s: State, c: ClientId, h: Hash)
    ensures Neutral(s, DoRevoke(s, c, h))
  {
  }

  lemma ClientNeutral(s: State, x: ClientStep)
    ensures Neutral(s, ClientNext(s, x))
  {
  }

  lemma PurgeNeutral(s: State)
    ensures Neutral(s, DoPurge(s))
  {
  }

  // ---- the four steps that are not neutral --------------------------------------------------------

  lemma MintKeeps(s: State, r: RequestId, f': Family, p: Phase)
    requires TokenInv(s) && r in s.flight && p == s.flight[r] && p.Redeemed? && f' !in s.families
    ensures TokenInv(DoMint(s, r, f', p))
  {
    var s' := DoMint(s, r, f', p);
    forall h ensures TokenKnown(s', h) { assert TokenKnown(s, h); }
    forall x ensures TicketKnown(s', x) { assert TicketKnown(s, x); }
    forall h ensures IssueKnown(s', h) { assert IssueKnown(s, h); }
    forall f ensures FamilyKnown(s', f) { assert FamilyKnown(s, f); }
    forall f ensures Exclusive(s', f) { MintExclusive(s, r, f', p, f); }
    forall h, k ensures !Fills(s', h, k, Birth(f')) { assert IssueKnown(s, h); }
    assert forall h, k, slot :: Fills(s', h, k, slot) <==> Fills(s, h, k, slot);
  }

  lemma MintExclusive(s: State, r: RequestId, f': Family, p: Phase, f: Family)
    requires TokenInv(s) && r in s.flight && p == s.flight[r] && p.Redeemed? && f' !in s.families
    ensures Exclusive(DoMint(s, r, f', p), f)
  {
    var s' := DoMint(s, r, f', p);
    assert Exclusive(s, f);
    forall h, k ensures Live(s', h, k, f) ==> Live(s, h, k, f) && f != f' { assert TokenKnown(s, h); }
    forall x ensures Holds(s', x, f) ==>
      if x == r then f == f' else Holds(s, x, f) && f != f' && s'.flight[x] == s.flight[x]
    {
      assert TicketKnown(s, x);
    }
  }

  lemma ClaimKeeps(s: State, r: RequestId, c: ClientId, x: Hash)
    requires TokenInv(s) && r !in s.flight && ClaimMatches(s, c, x)
    ensures TokenInv(DoClaim(s, r, c, x))
  {
    var s' := DoClaim(s, r, c, x);
    var g := s.tokens[x].family;
    assert TokenKnown(s, x) && FamilyKnown(s, g);
    forall slot, f ensures SlotIn(s, slot, f) ==> SlotIn(s', slot, f) {}
    forall h ensures TokenKnown(s', h) { assert TokenKnown(s, h); }
    forall q ensures TicketKnown(s', q) { assert TicketKnown(s, q); }
    forall h ensures IssueKnown(s', h) { assert IssueKnown(s, h); }
    forall f ensures FamilyKnown(s', f) { assert FamilyKnown(s, f); }
    forall f ensures Exclusive(s', f) { ClaimExclusive(s, r, c, x, f); }
    forall h, k ensures !Fills(s', h, k, After(x)) { assert IssueKnown(s, h); }
    assert forall h, k, slot :: Fills(s', h, k, slot) <==> Fills(s, h, k, slot);
  }

  lemma ClaimExclusive(s: State, r: RequestId, c: ClientId, x: Hash, f: Family)
    requires Exclusive(s, f) && r !in s.flight && ClaimMatches(s, c, x)
    ensures Exclusive(DoClaim(s, r, c, x), f)
  {
    var s' := DoClaim(s, r, c, x);
    forall h, k ensures Live(s', h, k, f) ==> Live(s, h, k, f) && h != x {}
    forall q ensures Holds(s', q, f) ==> if q == r then Live(s, x, Refresh, f) && !Cleared(s'.flight[q])
                                         else Holds(s, q, f) && s'.flight[q] == s.flight[q] {}
  }

  lemma SweepKeeps(s: State, r: RequestId, t: Ticket)
    requires TokenInv(s) && r in s.flight && s.flight[r] == Claimed(t)
    ensures TokenInv(DoSweep(s, r, t))
  {
    var s' := DoSweep(s, r, t);
    forall slot, f ensures SlotIn(s, slot, f) ==> SlotIn(s', slot, f) {}
    forall h ensures TokenKnown(s', h) { assert TokenKnown(s, h); }
    forall q ensures TicketKnown(s', q) { assert TicketKnown(s, q) && TicketKnown(s, r); }
    forall h ensures IssueKnown(s', h) { assert IssueKnown(s, h); }
    forall f ensures FamilyKnown(s', f) { assert FamilyKnown(s, f); }
    forall f ensures Exclusive(s', f) { SweepExclusive(s, r, t, f); }
    assert forall h, k, slot :: Fills(s', h, k, slot) <==> Fills(s, h, k, slot);
  }

  lemma SweepExclusive(s: State, r: RequestId, t: Ticket, f: Family)
    requires Exclusive(s, f) && r in s.flight && s.flight[r] == Claimed(t)
    ensures Exclusive(DoSweep(s, r, t), f)
  {
    var s' := DoSweep(s, r, t);
    forall h, k ensures Live(s', h, k, f) ==> Live(s, h, k, f) && f != t.family {}
    forall q ensures Holds(s', q, f) ==> Holds(s, q, f) && (f != t.family ==> s'.flight[q] == s.flight[q]) {}
  }

  predicate Inserting(s: State, r: RequestId, t: Ticket, kind: Kind) {
    r in s.flight && s.flight[r] == if kind == Access then Ready(t) else AccessOut(t)
  }

  lemma InsertKeeps(s: State, r: RequestId, x: Hash, t: Ticket, kind: Kind)
    requires TokenInv(s) && Inserting(s, r, t, kind) && x !in s.issued
    ensures TokenInv(DoInsert(s, r, x, t, kind))
  {
    var s' := DoInsert(s, r, x, t, kind);
    assert TokenKnown(s, x) && TicketKnown(s, r);
    forall h ensures Spent(s, h) && h in s.issued ==> Spent(s', h) {}
    forall slot, f ensures SlotIn(s, slot, f) ==> SlotIn(s', slot, f) {}
    forall h ensures TokenKnown(s', h) { assert TokenKnown(s, h); }
    forall q ensures TicketKnown(s', q) { assert TicketKnown(s, q); }
    forall h ensures IssueKnown(s', h) { assert IssueKnown(s, h); }
    forall f ensures FamilyKnown(s', f) { assert FamilyKnown(s, f); }
    forall f ensures Exclusive(s', f) { InsertExclusive(s, r, x, t, kind, f); }
    InsertSlots(s, r, x, t, kind);
  }

  lemma InsertExclusive(s: State, r: RequestId, x: Hash, t: Ticket, kind: Kind, f: Family)
    requires Exclusive(s, f) && Inserting(s, r, t, kind) && x !in s.tokens
    ensures Exclusive(DoInsert(s, r, x, t, kind), f)
  {
    var s' := DoInsert(s, r, x, t, kind);
    assert t.family == f ==> Holds(s, r, f);
    forall h, k ensures Live(s', h, k, f) ==> Live(s, h, k, f) || (h == x && k == kind && t.family == f) {}
    forall q ensures Holds(s', q, f) ==> Holds(s, q, f) && if q == r then s'.flight[q] == AccessOut(t) && kind == Access
                                                           else s'.flight[q] == s.flight[q] {}
  }

  lemma InsertSlots(s: State, r: RequestId, x: Hash, t: Ticket, kind: Kind)
    requires TokenInv(s) && Inserting(s, r, t, kind) && x !in s.issued
    ensures SlotsOnce(DoInsert(s, r, x, t, kind))
  {
    var s' := DoInsert(s, r, x, t, kind);
    forall h, k, slot ensures Fills(s', h, k, slot) <==>
      Fills(s, h, k, slot) || (h == x && k == kind && slot == t.slot) {}
    forall q | q in s'.flight && Holding(s'.flight[q]) && q != r
      ensures q in s.flight && s'.flight[q] == s.flight[q] && s.flight[q].ticket.slot != t.slot
    {
      assert TicketKnown(s, q) && TicketKnown(s, r) && Exclusive(s, t.family);
      assert Holds(s, r, t.family) && !Holds(s, q, t.family);
    }
  }

  lemma GrantKeeps(s: State, g: GrantStep)
    requires TokenInv(s)
    ensures TokenInv(GrantNext(s, g))
  {
    match g {
      case RedeemCode(r, c, h, verifier, redirect) =>
        if h in s.codes { RedeemNeutral(s, r, c, h, verifier, redirect); }
      case Credentials(r, c, scope) =>
      case Claim(r, c, h) =>
        if r !in s.flight {
          if ClaimMatches(s, c, h) { ClaimKeeps(s, r, c, h); } else { MissNeutral(s, r, c, h); }
        }
    }
    if Neutral(s, GrantNext(s, g)) { NeutralKeeps(s, GrantNext(s, g)); }
  }

  lemma QuietResumeKeeps(s: State, r: RequestId, p: Phase, x: Statement)
    requires TokenInv(s) && r in s.flight && p == s.flight[r] && (x.CheckActive? || x.LookupReplay? || x.RevokeReplay?)
    ensures TokenInv(ResumeNext(s, r, p, x))
  {
    match x {
      case CheckActive(active) => if p.Swept? { CheckNeutral(s, r, p.ticket, active); }
      case LookupReplay => if p.Missed? { LookupNeutral(s, r, p); }
      case RevokeReplay => if p.Replaying? { ReplayNeutral(s, r, p.target); }
    }
    if Neutral(s, ResumeNext(s, r, p, x)) { NeutralKeeps(s, ResumeNext(s, r, p, x)); }
  }

  lemma ResumeKeeps(s: State, r: RequestId, p: Phase, x: Statement)
    requires TokenInv(s) && r in s.flight && p == s.flight[r]
    ensures TokenInv(ResumeNext(s, r, p, x))
  {
    match x {
      case MintFamily(f) => if p.Redeemed? && f !in s.families { MintKeeps(s, r, f, p); }
      case Sweep => if p.Claimed? { SweepKeeps(s, r, p.ticket); }
      case InsertAccess(h) => if p.Ready? && h !in s.issued { InsertKeeps(s, r, h, p.ticket, Access); }
      case InsertRefresh(h) => if p.AccessOut? && h !in s.issued { InsertKeeps(s, r, h, p.ticket, Refresh); }
      case _ => QuietResumeKeeps(s, r, p, x);
    }
  }

  lemma StepKeeps(s: State, e: Event)
    requires TokenInv(s)
    ensures TokenInv(Step(s, e))
  {
    match e {
      case Tick(d) => NeutralKeeps(s, Step(s, e));
      case Authorization(a) => AuthorizationNeutral(s, a); NeutralKeeps(s, Step(s, e));
      case Grant(g) => GrantKeeps(s, g);
      case Resume(r, x) => if r in s.flight { ResumeKeeps(s, r, s.flight[r], x); }
      case Fail(r) => LandNeutral(s, r); NeutralKeeps(s, Step(s, e));
      case Revoke(c, h) => RevokeNeutral(s, c, h); if c in s.clients { NeutralKeeps(s, Step(s, e)); }
      case Purge => PurgeNeutral(s); NeutralKeeps(s, Step(s, e));
      case Administer(x) => ClientNeutral(s, x); NeutralKeeps(s, Step(s, e));
    }
  }

  lemma {:induction false} RunKeeps(s: State, es: seq<Event>)
    requires TokenInv(s)
    ensures TokenInv(Run(s, es))
    decreases |es|
  {
    if es != [] {
      StepKeeps(s, es[0]);
      RunKeeps(Step(s, es[0]), es[1..]);
    }
  }
}
