/** The department forest: parent pointers guarded by a bounded walk upward. */
module Departments {
  import opened Common
  import opened Hops

  /** Letter case is all in which two spellings of one id can differ; the database spells ids in lower case. */
  function Lower(c: char): char {
    if 'A' <= c <= 'Z' then c - 'A' + 'a' else c
  }

  predicate Canonical(text: string) {
    forall i :: 0 <= i < |text| ==> !('A' <= text[i] <= 'Z')
  }

  /** An id as the database spells it. */
  type Id = text: string | Canonical(text) witness ""

  /** The id a text stands for. */
  function Canon(text: string): (id: Id)
    ensures Canonical(text) <==> id == text
    ensures id == "" <==> text == ""
  {
    var id := seq(|text|, i requires 0 <= i < |text| => Lower(text[i]));
    assert forall i :: 0 <= i < |text| ==> ('A' <= text[i] <= 'Z' ==> id[i] != text[i]);
    id
  }

  type Forest = map<Id, Option<Id>>

  const MAX_WALK := 32

  datatype Verdict = Accepted | Cycle | MissingParent
  datatype Outcome = Done | BadParent | NotFound | Conflict

  /** checkParent's loop from its i-th round, standing at cur. The node is compared as text; looking it up casts it. */
  function Walk(up: Forest, self: string, cur: string, i: nat): Verdict
    requires i <= MAX_WALK
    decreases MAX_WALK - i
  {
    if i == MAX_WALK || cur == "" || cur == self then Cycle
    else if Canon(cur) !in up then MissingParent
    else if up[Canon(cur)].None? then Accepted
    else Walk(up, self, up[Canon(cur)].value, i + 1)
  }

  function Check(up: Forest, self: string, parent: Option<string>): Verdict {
    if parent.None? then Accepted else Walk(up, self, parent.value, 0)
  }

  /** n steps above p stands a root. */
  ghost predicate RootAt(up: Forest, p: Id, n: nat) {
    Hop<Id>(up, p, n).Some? && Hop<Id>(up, p, n).value in up && up[Hop<Id>(up, p, n).value].None?
  }

  /** What the walk compares after i steps: first the text it started from, then ids as the database spells them. */
  function Met(up: Forest, cur: string, i: nat): Option<string> {
    if i == 0 then Some(cur) else Hop<Id>(up, Canon(cur), i)
  }

  /** The n-step walk from cur meets neither self nor the empty text. */
  ghost predicate Clear(up: Forest, self: string, cur: string, n: nat) {
    forall i: nat :: i <= n ==> Met(up, cur, i) != Some(self) && Met(up, cur, i) != Some("")
  }

  /** The walk accepts a parent exactly when a root stands fewer than 32 steps above it and nothing it meets
      is spelled like the department itself. */
  lemma {:induction false} WalkExact(up: Forest, self: string, cur: string, i: nat)
    requires i <= MAX_WALK
    ensures Walk(up, self, cur, i) == Accepted <==>
      exists n: nat :: i + n < MAX_WALK && RootAt(up, Canon(cur), n) && Clear(up, self, cur, n)
    decreases MAX_WALK - i
  {
    if n: nat :| i + n < MAX_WALK && RootAt(up, Canon(cur), n) && Clear(up, self, cur, n) {
      assert Met(up, cur, 0) == Some(cur);
      if n > 0 {
        var next: Id := up[Canon(cur)].value;
        assert Canon(next) == next && RootAt(up, next, n - 1);
        forall j: nat | j <= n - 1 ensures Met(up, next, j) != Some(self) && Met(up, next, j) != Some("") {
          assert Met(up, cur, j + 1) == Hop<Id>(up, next, j) == Met(up, next, j);
        }
        WalkExact(up, self, next, i + 1);
      }
    }
    if Walk(up, self, cur, i) == Accepted {
      if up[Canon(cur)].None? {
        assert RootAt(up, Canon(cur), 0) && Clear(up, self, cur, 0);
      } else {
        var next: Id := up[Canon(cur)].value;
        WalkExact(up, self, next, i + 1);
        assert Canon(next) == next;
        var n: nat :| i + 1 + n < MAX_WALK && RootAt(up, next, n) && Clear(up, self, next, n);
        assert RootAt(up, Canon(cur), n + 1);
        forall j: nat | j <= n + 1 ensures Met(up, cur, j) != Some(self) && Met(up, cur, j) != Some("") {
          if j > 0 { assert Met(up, cur, j) == Hop<Id>(up, next, j - 1) == Met(up, next, j - 1); }
        }
      }
    }
  }

  /** Above a root there is nothing, so a clear walk to a root is clear however far one goes. */
  lemma BeyondRoot(up: Forest, p: Id, n: nat, m: nat)
    requires RootAt(up, p, n) && m > n
    ensures Hop<Id>(up, p, m) == None
  {
    HopAdd(up, p, n, m - n);
  }

  /** checkParent. */
  method CheckParent(up: Forest, self: string, parent: Option<string>) returns (verdict: Verdict)
    ensures verdict == Check(up, self, parent)
  {
    if parent.None? {
      return Accepted;
    }
    var cur := parent.value;
    var i := 0;
    while i < 32 && cur != ""
      invariant 0 <= i <= MAX_WALK
      invariant Walk(up, self, cur, i) == Check(up, self, parent)
    {
      if cur == self {
        return Cycle;
      }
      if Canon(cur) !in up {
        return MissingParent;
      }
      var next := up[Canon(cur)];
      if next.None? {
        return Accepted;
      }
      cur := next.value;
      i := i + 1;
    }
    return Cycle;
  }

  /** The requests, with ids as their texts; the id of a new department is drawn by the database. dbOk says whether the
      row passes the table's own constraints (code unique, manager of this tenant). */
  datatype Op =
    | Create(id: Id, parent: Option<string>, dbOk: bool)
    | Update(self: string, parent: Option<string>, dbOk: bool)
    | Delete(self: string)

  /** An empty parent id in the request means no parent. */
  function Normal(parent: Option<string>): Option<string> {
    if parent == Some("") then None else parent
  }

  /** What is stored for the parent of a request. */
  function Stored(parent: Option<string>): Option<Id> {
    if Normal(parent).None? then None else Some(Canon(parent.value))
  }

  /** DELETE, with ON DELETE SET NULL on the children. */
  function Removed(up: Forest, id: Id): Forest {
    map k | k in up && k != id :: if up[k] == Some(id) then None else up[k]
  }

  function Apply(up: Forest, op: Op): (Outcome, Forest) {
    match op
    case Create(id, parent, dbOk) =>
      if Check(up, "", Normal(parent)) != Accepted then (BadParent, up)
      else if !dbOk || id in up || id == "" then (Conflict, up)
      else (Done, up[id := Stored(parent)])
    case Update(self, parent, dbOk) =>
      if Check(up, self, Normal(parent)) != Accepted then (BadParent, up)
      else if Canon(self) !in up then (NotFound, up)
      else if !dbOk then (Conflict, up)
      else (Done, up[Canon(self) := Stored(parent)])
    case Delete(self) =>
      if Canon(self) in up then (Done, Removed(up, Canon(self))) else (NotFound, up)
  }

  function Run(up: Forest, ops: seq<Op>): Forest
    decreases |ops|
  {
    if ops == [] then up else Run(Apply(up, ops[0]).1, ops[1..])
  }

  ghost predicate ForestInv(up: Forest) {
    Closed(up) && Acyclic(up) && "" !in up
  }

  /** No ancestor 33 steps up. */
  ghost predicate AtMost32Ancestors(up: Forest, k: Id) {
    forall n: nat :: n > 32 ==> Hop<Id>(up, k, n) == None
  }

  /** What an accepted parent is worth: it exists, it is not spelled like the node, the walk up from it meets nothing
      that the database spells like the text of the node, and it ends within 32. */
  lemma AcceptedParent(up: Forest, self: string, p: string)
    requires Check(up, self, Some(p)) == Accepted
    ensures Canon(p) in up && p != self && (forall n: nat :: n >= 32 ==> Hop<Id>(up, Canon(p), n) == None)
    ensures forall n: nat :: n > 0 ==> Hop<Id>(up, Canon(p), n) != Some(self)
  {
    WalkExact(up, self, p, 0);
    var r: nat :| r < MAX_WALK && RootAt(up, Canon(p), r) && Clear(up, self, p, r);
    assert Met(up, p, 0) == Some(p);
    forall n: nat | n > r ensures Hop<Id>(up, Canon(p), n) == None { BeyondRoot(up, Canon(p), r, n); }
    forall n: nat | n > 0 ensures Hop<Id>(up, Canon(p), n) != Some(self) {
      if n <= r { assert Met(up, p, n) == Hop<Id>(up, Canon(p), n); }
    }
  }

  // ---- spelling -----------------------------------------------------------------------------------------------

  /** The walk up from p does not meet the department. */
  ghost predicate Outside(up: Forest, id: Id, p: Id) {
    forall n: nat :: Hop<Id>(up, p, n) != Some(id)
  }

  /** Hanging a department of a forest under p keeps a forest exactly when it is not on the walk up from p. */
  lemma MoveExact(up: Forest, id: Id, p: Id)
    requires ForestInv(up) && id in up && p in up
    ensures ForestInv(up[id := Some(p)]) <==> Outside(up, id, p)
  {
    if Outside(up, id, p) {
      Reparent(up, id, Some(p));
    } else {
      var n: nat :| Hop<Id>(up, p, n) == Some(id);
      var m := FirstVisit(up, p, id, n);
      HopAvoids(up, up[id := Some(p)], id, p, m);
      assert Hop<Id>(up[id := Some(p)], id, m + 1) == Some(id);
    }
  }

  /** Two texts for one id are one text, and otherwise the department is spelled as the database spells it. */
  predicate WellSpelled(self: string, p: string) {
    if Canon(p) == Canon(self) then p == self else Canonical(self)
  }

  lemma WellSpelledOutside(up: Forest, self: string, p: string)
    requires ForestInv(up) && Check(up, self, Some(p)) == Accepted && WellSpelled(self, p)
    ensures Outside(up, Canon(self), Canon(p))
  {
    AcceptedParent(up, self, p);
    assert Hop<Id>(up, Canon(p), 0) == Some(Canon(p));
  }

  /** Every accepted move in every forest leaves a forest. */
  ghost predicate AlwaysSafe(self: string, p: string) {
    forall up: Forest ::
      ForestInv(up) && Canon(self) in up && Check(up, self, Some(p)) == Accepted ==>
        ForestInv(up[Canon(self) := Some(Canon(p))])
  }

  /** The check keeps the forest for a pair of texts, whatever the forest, exactly when they are well spelled. */
  lemma SpellingExact(self: string, p: string)
    requires self != "" && p != ""
    ensures AlwaysSafe(self, p) <==> WellSpelled(self, p)
  {
    if WellSpelled(self, p) {
      forall up: Forest | ForestInv(up) && Canon(self) in up && Check(up, self, Some(p)) == Accepted
        ensures ForestInv(up[Canon(self) := Some(Canon(p))])
      {
        AcceptedParent(up, self, p);
        WellSpelledOutside(up, self, p);
        MoveExact(up, Canon(self), Canon(p));
      }
    } else {
      var up := MisspelledMove(self, p);
      assert Check(up, self, Some(p)) == Accepted;
    }
  }

  /** The forest in which a misspelled move closes a cycle: the department alone, or above its new parent. */
  lemma MisspelledMove(self: string, p: string) returns (up: Forest)
    requires self != "" && p != "" && !WellSpelled(self, p)
    ensures ForestInv(up) && Canon(self) in up && Check(up, self, Some(p)) == Accepted
    ensures !ForestInv(up[Canon(self) := Some(Canon(p))])
  {
    var id, q := Canon(self), Canon(p);
    var none: Forest := map[];
    AddLeaf(none, id, None);
    up := none[id := None];
    if q != id {
      AddLeaf(up, q, Some(id));
      up := up[q := Some(id)];
      assert Hop<Id>(up, q, 1) == Hop<Id>(up, id, 0) == Some(id);
      assert Walk(up, self, p, 0) == Walk(up, self, id, 1) == Accepted;
    } else {
      assert Hop<Id>(up, q, 0) == Some(id);
    }
    MoveExact(up, id, q);
  }

  // ---- requests and runs --------------------------------------------------------------------------------------

  /** The request is not an accepted move under another department, or the department is not on the walk up. */
  ghost predicate MovesOutside(up: Forest, op: Op) {
    op.Update? && Normal(op.parent).Some? && Apply(up, op).0 == Done ==>
      Outside(up, Canon(op.self), Canon(op.parent.value))
  }

  /** One request keeps the forest exactly when it is not a move of a department under itself or one below it. */
  lemma ApplyExact(up: Forest, op: Op)
    requires ForestInv(up)
    ensures ForestInv(Apply(up, op).1) <==> MovesOutside(up, op)
  {
    if Apply(up, op).0 == Done {
      match op {
        case Create(id, parent, dbOk) =>
          if Normal(parent).Some? { AcceptedParent(up, "", parent.value); }
          AddLeaf(up, id, Stored(parent));
        case Update(self, parent, dbOk) =>
          if Normal(parent).Some? {
            AcceptedParent(up, self, parent.value);
            MoveExact(up, Canon(self), Canon(parent.value));
          } else {
            Reparent(up, Canon(self), None);
          }
        case Delete(self) =>
          var up' := Removed(up, Canon(self));
          forall k, n: nat | k in up' && n > 0 ensures Hop<Id>(up', k, n) != Some(k) { HopShrinks(up, up', k, n); }
      }
    }
  }

  /** The department that a create or update writes. */
  function Written(op: Op): Id
    requires !op.Delete?
  {
    if op.Create? then op.id else Canon(op.self)
  }

  /** A department written by a request that keeps the forest has at most 32 ancestors. */
  lemma WrittenDepth(up: Forest, op: Op)
    requires ForestInv(up) && MovesOutside(up, op) && !op.Delete? && Apply(up, op).0 == Done
    ensures AtMost32Ancestors(Apply(up, op).1, Written(op))
  {
    var id, p, up' := Written(op), Stored(op.parent), Apply(up, op).1;
    if p.Some? {
      AcceptedParent(up, if op.Create? then "" else op.self, op.parent.value);
      if op.Create? { AddLeaf(up, id, p); } else { Reparent(up, id, p); }
    }
    forall n: nat | n > 32 ensures Hop<Id>(up', id, n) == None {
      if p.Some? { assert Hop<Id>(up', id, n) == Hop<Id>(up', p.value, n - 1) == Hop<Id>(up, p.value, n - 1); }
    }
  }

  ghost predicate AllMoveOutside(up: Forest, ops: seq<Op>)
    decreases |ops|
  {
    ops == [] || (MovesOutside(up, ops[0]) && AllMoveOutside(Apply(up, ops[0]).1, ops[1..]))
  }

  /** Every state of the run is a forest. */
  ghost predicate AlwaysForest(up: Forest, ops: seq<Op>)
    decreases |ops|
  {
    ForestInv(up) && (ops == [] || AlwaysForest(Apply(up, ops[0]).1, ops[1..]))
  }

  /** A run is a forest throughout exactly when no accepted move of it hangs a department under itself or one below
      it. */
  lemma {:induction false} RunExact(up: Forest, ops: seq<Op>)
    requires ForestInv(up)
    ensures AlwaysForest(up, ops) <==> AllMoveOutside(up, ops)
    decreases |ops|
  {
    if ops != [] {
      ApplyExact(up, ops[0]);
      if MovesOutside(up, ops[0]) { RunExact(Apply(up, ops[0]).1, ops[1..]); }
    }
  }

  /** The texts of the request are well spelled. */
  predicate Spelled(op: Op) {
    op.Update? && Normal(op.parent).Some? ==> WellSpelled(op.self, op.parent.value)
  }

  /** One well-spelled request keeps the forest, and a department just written has at most 32 ancestors. */
  lemma ApplyKeeps(up: Forest, op: Op)
    requires ForestInv(up) && Spelled(op)
    ensures ForestInv(Apply(up, op).1) && MovesOutside(up, op)
    ensures !op.Delete? && Apply(up, op).0 == Done ==> AtMost32Ancestors(Apply(up, op).1, Written(op))
  {
    if op.Update? && Normal(op.parent).Some? && Apply(up, op).0 == Done {
      WellSpelledOutside(up, op.self, op.parent.value);
    }
    ApplyExact(up, op);
    if !op.Delete? && Apply(up, op).0 == Done { WrittenDepth(up, op); }
  }

  /** Every sequence of well-spelled creates, updates and deletes keeps the parent graph acyclic and closed. */
  lemma {:induction false} RunKeeps(up: Forest, ops: seq<Op>)
    requires ForestInv(up) && forall op :: op in ops ==> Spelled(op)
    ensures ForestInv(Run(up, ops)) && AlwaysForest(up, ops)
    decreases |ops|
  {
    if ops != [] {
      ApplyKeeps(up, ops[0]);
      RunKeeps(Apply(up, ops[0]).1, ops[1..]);
    }
  }

  /** Two departments, and the upper one, spelled in the other case, moved under the lower: the run from an empty table
      ends with a cycle of two. */
  lemma OtherCase()
    ensures var up := Run(map[], [Create("a", None, true), Create("b", Some("a"), true), Update("A", Some("b"), true)]);
      "a" in up && up["a"] == Some("b") && Hop<Id>(up, "a", 2) == Some("a")
  {
    var a, b, c := Create("a", None, true), Create("b", Some("a"), true), Update("A", Some("b"), true);
    var none: Forest := map[];
    var one: Forest := map["a" := None];
    var two: Forest := map["a" := None, "b" := Some("a")];
    assert "A"[0] == 'A' && Canon("A") == "a";
    assert Apply(none, a) == (Done, one);
    assert Walk(one, "", "a", 0) == Accepted && Apply(one, b) == (Done, two);
    assert Walk(two, "A", "b", 0) == Walk(two, "A", "a", 1) == Accepted;
    assert [a, b, c][1..] == [b, c] && [b, c][1..] == [c] && [c][1..] == [];
    assert Run(none, [a, b, c]) == Run(one, [b, c]) == Run(two, [c]) == Apply(two, c).1;
    var up := Apply(two, c).1;
    assert Hop<Id>(up, "b", 1) == Some("a") && Hop<Id>(up, "a", 2) == Hop<Id>(up, "b", 1);
  }

  /** In a forest the walk refuses an existing parent exactly when it is spelled like the node, the node as spelled is
      among the first 32 nodes of the walk, or the walk has more than 32 nodes. */
  lemma RefusedParent(up: Forest, self: string, p: string)
    requires ForestInv(up) && Canon(p) in up
    ensures Check(up, self, Some(p)) != Accepted <==>
      (exists n: nat :: n < 32 && Met(up, p, n) == Some(self)) || Hop<Id>(up, Canon(p), 32) != None
  {
    if Check(up, self, Some(p)) == Accepted {
      AcceptedParent(up, self, p);
    } else if Hop<Id>(up, Canon(p), 32) == None && forall n: nat :: n < 32 ==> Met(up, p, n) != Some(self) {
      ShortWalkAccepted(up, self, p);
    }
  }

  lemma ShortWalkAccepted(up: Forest, self: string, p: string)
    requires ForestInv(up) && Canon(p) in up
    requires Hop<Id>(up, Canon(p), 32) == None && forall n: nat :: n < 32 ==> Met(up, p, n) != Some(self)
    ensures Check(up, self, Some(p)) == Accepted
  {
    var q := Canon(p);
    assert q != "" && p != "";
    var r := LastStep(up, q, 32);
    forall i: nat | i <= r ensures Met(up, p, i) != Some("") { HopStays(up, q, i); }
    HopStays(up, q, r);
    HopAdd(up, q, r, 1);
    assert Hop<Id>(up, Hop<Id>(up, q, r).value, 1) == None;
    assert 0 + r < MAX_WALK && RootAt(up, q, r) && Clear(up, self, p, r);
    WalkExact(up, self, p, 0);
  }

  lemma {:induction false} LastStep(up: Forest, p: Id, n: nat) returns (r: nat)
    requires Closed(up) && p in up && Hop<Id>(up, p, n) == None
    ensures r < n && Hop<Id>(up, p, r).Some? && Hop<Id>(up, p, r + 1) == None
    decreases n
  {
    if Hop<Id>(up, p, n - 1).Some? { r := n - 1; } else { r := LastStep(up, p, n - 1); }
  }

  // ---- what each request answers and writes -------------------------------------------------------------------

  /** The id of a text has its length, and each of its characters but for capital letters, which become small. */
  lemma CanonExact(text: string)
    ensures |Canon(text)| == |text|
    ensures forall i :: 0 <= i < |text| ==>
      if 'A' <= text[i] <= 'Z' then Canon(text)[i] as int == text[i] as int + 32 else Canon(text)[i] == text[i]
  {
  }

  /** No department, or one that is in the table, not spelled like the node, and from which the walk up ends within 32
      nodes without meeting the node as it is spelled. */
  ghost predicate GoodParent(up: Forest, self: string, parent: Option<string>) {
    parent.None? || parent.value == "" ||
    var p := Canon(parent.value);
    && p in up && parent.value != self && Hop<Id>(up, p, 32) == None
    && forall n: nat :: 0 < n < 32 ==> Hop<Id>(up, p, n) != Some(self)
  }

  lemma GoodParentExact(up: Forest, self: string, parent: Option<string>)
    requires ForestInv(up)
    ensures Check(up, self, Normal(parent)) == Accepted <==> GoodParent(up, self, parent)
  {
    if Normal(parent).Some? {
      var p := parent.value;
      if Canon(p) in up {
        RefusedParent(up, self, p);
        assert Met(up, p, 0) == Some(p);
        if n: nat :| n < 32 && Met(up, p, n) == Some(self) {
          assert n == 0 || Hop<Id>(up, Canon(p), n) == Some(self);
        }
        if n: nat :| 0 < n < 32 && Hop<Id>(up, Canon(p), n) == Some(self) { assert Met(up, p, n) == Some(self); }
      }
    }
  }

  /** The row's parent as the request asks for it, in the database's spelling. */
  predicate AsAsked(stored: Option<Id>, parent: Option<string>) {
    if parent.None? || parent.value == "" then stored == None else stored == Some(Canon(parent.value))
  }

  /** Every other row is as it was. */
  ghost predicate Others(up: Forest, up': Forest, id: Id) {
    forall k :: k != id ==> (k in up' <==> k in up) && (k in up ==> up'[k] == up[k])
  }

  lemma CreateExact(up: Forest, id: Id, parent: Option<string>, dbOk: bool)
    requires ForestInv(up)
    ensures var (outcome, up') := Apply(up, Create(id, parent, dbOk));
      && (outcome == BadParent <==> !GoodParent(up, "", parent))
      && (outcome == Done <==> GoodParent(up, "", parent) && dbOk && id !in up && id != "")
      && (outcome == BadParent || outcome == Done || outcome == Conflict)
      && (if outcome == Done then id in up' && AsAsked(up'[id], parent) && Others(up, up', id) else up' == up)
  {
    GoodParentExact(up, "", parent);
  }

  lemma UpdateExact(up: Forest, self: string, parent: Option<string>, dbOk: bool)
    requires ForestInv(up)
    ensures var (outcome, up') := Apply(up, Update(self, parent, dbOk));
      && (outcome == BadParent <==> !GoodParent(up, self, parent))
      && (outcome == NotFound <==> GoodParent(up, self, parent) && Canon(self) !in up)
      && (outcome == Done <==> GoodParent(up, self, parent) && Canon(self) in up && dbOk)
      && (outcome == BadParent || outcome == NotFound || outcome == Done || outcome == Conflict)
      && (if outcome == Done
          then Canon(self) in up' && AsAsked(up'[Canon(self)], parent) && Others(up, up', Canon(self)) else up' == up)
  {
    GoodParentExact(up, self, parent);
  }

  /** Deleting: the row goes, its children become roots, and every other department keeps its parent. */
  lemma DeleteExact(up: Forest, self: string, k: Id)
    ensures var (outcome, up') := Apply(up, Delete(self));
      && (outcome == Done <==> Canon(self) in up) && (outcome == Done || outcome == NotFound)
      && (outcome == NotFound ==> up' == up)
      && (outcome == Done ==>
            && (k in up' <==> k in up && k != Canon(self))
            && (k in up' && up[k] == Some(Canon(self)) ==> up'[k] == None)
            && (k in up' && up[k] != Some(Canon(self)) ==> up'[k] == up[k]))
  {
  }

  /** The table behind the three endpoints. */
  class Table {
    var parent: Forest

    constructor ()
      ensures parent == map[]
    {
      parent := map[];
    }

    method CreateDepartment(id: Id, p: Option<string>, dbOk: bool) returns (outcome: Outcome)
      modifies this
      ensures (outcome, parent) == Apply(old(parent), Create(id, p, dbOk))
    {
      var verdict := CheckParent(parent, "", Normal(p));
      if verdict != Accepted {
        return BadParent;
      }
      if !dbOk || id in parent || id == "" {
        return Conflict;
      }
      parent := parent[id := Stored(p)];
      return Done;
    }

    method UpdateDepartment(self: string, p: Option<string>, dbOk: bool) returns (outcome: Outcome)
      modifies this
      ensures (outcome, parent) == Apply(old(parent), Update(self, p, dbOk))
    {
      var verdict := CheckParent(parent, self, Normal(p));
      if verdict != Accepted {
        return BadParent;
      }
      if Canon(self) !in parent {
        return NotFound;
      }
      if !dbOk {
        return Conflict;
      }
      parent := parent[Canon(self) := Stored(p)];
      return Done;
    }

    method DeleteDepartment(self: string) returns (outcome: Outcome)
      modifies this
      ensures (outcome, parent) == Apply(old(parent), Delete(self))
    {
      var id := Canon(self);
      if id !in parent {
        return NotFound;
      }
      parent := map k | k in parent && k != id :: if parent[k] == Some(id) then None else parent[k];
      return Done;
    }
  }
}
