/** How deep the department forest gets: the walk bounds the department written, not the ones below it. */
module DepartmentDepth {
  import opened Common
  import opened Hops
  import opened Departments

  /** No department has more than 32 ancestors. */
  ghost predicate Shallow(up: Forest) {
    forall k :: k in up ==> Hop(up, k, 33) == None
  }

  /** As far as k stands below id, hanging id under p leaves k at most 32 ancestors. */
  ghost predicate Room(up: Forest, k: Id, id: Id, p: Id) {
    forall n: nat :: n <= 32 && Hop(up, k, n) == Some(id) ==> Hop(up, p, 32 - n) == None
  }

  lemma Beyond(up: Forest, k: Id, n: nat, m: nat)
    requires Hop(up, k, n) == None && n <= m
    ensures Hop(up, k, m) == None
  {
    HopAdd(up, k, n, m - n);
  }

  /** Below id, the walk up after the move is the old walk to id followed by the walk from p. */
  lemma MovedBelow(up: Forest, k: Id, id: Id, p: Id, m: nat)
    requires Closed(up) && Acyclic(up) && id in up && p in up && forall n: nat :: Hop(up, p, n) != Some(id)
    requires m <= 32 && Hop(up, k, m) == Some(id)
    ensures Hop(up[id := Some(p)], k, 33) == Hop(up, p, 32 - m)
  {
    var up' := up[id := Some(p)];
    var f := FirstVisit(up, k, id, m);
    if f < m { HopAdd(up, k, f, m - f); }
    HopAvoids(up, up', id, k, m);
    HopAdd(up', k, m, 33 - m);
    assert Hop(up', id, 33 - m) == Hop(up', p, 32 - m);
    HopAvoids(up, up', id, p, 32 - m);
  }

  /** A department that is not below id keeps its walk. */
  lemma MovedAside(up: Forest, k: Id, id: Id, p: Id)
    requires Hop(up, k, 33) == None && forall n: nat :: n <= 32 ==> Hop(up, k, n) != Some(id)
    ensures Hop(up[id := Some(p)], k, 33) == None
  {
    HopAvoids(up, up[id := Some(p)], id, k, 33);
  }

  /** A move that the check can let through and that closes no cycle keeps every department at 32 ancestors or fewer
      exactly when there is room for all that stands below the department moved. */
  lemma MoveKeepsShallow(up: Forest, id: Id, p: Id)
    requires ForestInv(up) && Shallow(up) && id in up && p in up && Hop(up, p, 32) == None && Outside(up, id, p)
    ensures Shallow(up[id := Some(p)]) <==> forall k :: k in up ==> Room(up, k, id, p)
  {
    var up' := up[id := Some(p)];
    forall k | k in up ensures Hop(up', k, 33) == None <==> Room(up, k, id, p) {
      if m: nat :| m <= 32 && Hop(up, k, m) == Some(id) {
        MovedBelow(up, k, id, p, m);
        forall n: nat | n <= 32 && Hop(up, k, n) == Some(id) ensures Hop(up, p, 32 - n) == Hop(up, p, 32 - m) {
          MovedBelow(up, k, id, p, n);
        }
      } else {
        MovedAside(up, k, id, p);
      }
    }
    assert up'.Keys == up.Keys;
  }

  /** A cycle has no end. */
  lemma {:induction false} CycleDeep(up: Forest, k: Id, n: nat, m: nat)
    requires n > 0 && Hop(up, k, n) == Some(k)
    ensures Hop(up, k, m) != None
    decreases m
  {
    if m <= n {
      HopAdd(up, k, m, n - m);
    } else {
      CycleDeep(up, k, n, m - n);
      HopAdd(up, k, n, m - n);
    }
  }

  lemma CyclicNotShallow(up: Forest, id: Id, p: Id)
    requires ForestInv(up) && id in up && p in up && !Outside(up, id, p)
    ensures !Shallow(up[id := Some(p)])
  {
    MoveExact(up, id, p);
    var up' := up[id := Some(p)];
    assert Closed(up');
    var k, n: nat :| k in up' && n > 0 && Hop(up', k, n) == Some(k);
    CycleDeep(up', k, n, 33);
  }

  /** The request is not an accepted move under another department, or it closes no cycle and there is room for it. */
  ghost predicate Roomy(up: Forest, op: Op) {
    op.Update? && Normal(op.parent).Some? && Apply(up, op).0 == Done ==>
      var id, p := Canon(op.self), Canon(op.parent.value);
      Outside(up, id, p) && forall k :: k in up ==> Room(up, k, id, p)
  }

  lemma CreateKeepsShallow(up: Forest, id: Id, parent: Option<string>)
    requires ForestInv(up) && Shallow(up) && id !in up && Check(up, "", Normal(parent)) == Accepted
    ensures Shallow(up[id := Stored(parent)])
  {
    var p := Stored(parent);
    var up' := up[id := p];
    if p.Some? { AcceptedParent(up, "", parent.value); }
    AddLeaf(up, id, p);
    assert p.Some? ==> Hop(up', id, 33) == Hop(up', p.value, 32) == Hop(up, p.value, 32);
  }

  lemma CutKeepsShallow(up: Forest, up': Forest)
    requires Shallow(up) && forall y :: y in up' ==> y in up && (up'[y] == up[y] || up'[y] == None)
    ensures Shallow(up')
  {
    forall k | k in up' ensures Hop(up', k, 33) == None { HopShrinks(up, up', k, 33); }
  }

  lemma UpdateShallow(up: Forest, self: string, p: string)
    requires ForestInv(up) && Shallow(up) && Canon(self) in up && Check(up, self, Some(p)) == Accepted
    ensures Shallow(up[Canon(self) := Some(Canon(p))]) <==>
      Outside(up, Canon(self), Canon(p)) && forall k :: k in up ==> Room(up, k, Canon(self), Canon(p))
  {
    AcceptedParent(up, self, p);
    if Outside(up, Canon(self), Canon(p)) {
      MoveKeepsShallow(up, Canon(self), Canon(p));
    } else {
      CyclicNotShallow(up, Canon(self), Canon(p));
    }
  }

  /** Creating, deleting and making a root always keep the bound; a move keeps it exactly when it closes no cycle and
      there is room. */
  lemma ApplyShallow(up: Forest, op: Op)
    requires ForestInv(up) && Shallow(up)
    ensures Shallow(Apply(up, op).1) <==> Roomy(up, op)
  {
    if Apply(up, op).0 == Done {
      match op {
        case Create(id, parent, dbOk) => CreateKeepsShallow(up, id, parent);
        case Update(self, parent, dbOk) =>
          if Normal(parent).Some? {
            UpdateShallow(up, self, parent.value);
          } else {
            CutKeepsShallow(up, up[Canon(self) := None]);
          }
        case Delete(self) => CutKeepsShallow(up, Removed(up, Canon(self)));
      }
    }
  }

  ghost predicate AllRoomy(up: Forest, ops: seq<Op>)
    decreases |ops|
  {
    ops == [] || (Roomy(up, ops[0]) && AllRoomy(Apply(up, ops[0]).1, ops[1..]))
  }

  /** Every state of the run is shallow. */
  ghost predicate AlwaysShallow(up: Forest, ops: seq<Op>)
    decreases |ops|
  {
    Shallow(up) && (ops == [] || AlwaysShallow(Apply(up, ops[0]).1, ops[1..]))
  }

  /** A run stays shallow throughout exactly when every accepted move of it closed no cycle and had room. */
  lemma {:induction false} RunShallow(up: Forest, ops: seq<Op>)
    requires ForestInv(up) && Shallow(up)
    ensures AlwaysShallow(up, ops) <==> AllRoomy(up, ops)
    decreases |ops|
  {
    if ops != [] {
      ApplyShallow(up, ops[0]);
      ApplyExact(up, ops[0]);
      if Roomy(up, ops[0]) { RunShallow(Apply(up, ops[0]).1, ops[1..]); }
    }
  }

  // ---- a run that gets deeper ---------------------------------------------------------------------------------

  function Name(n: nat): Id {
    seq(n + 1, i => 'x')
  }

  /** A chain of departments, each created under the one before. */
  function Grow(n: nat): seq<Op> {
    if n == 0 then [Create(Name(0), None, true)] else Grow(n - 1) + [Create(Name(n), Some(Name(n - 1)), true)]
  }

  lemma {:induction false} RunSnoc(up: Forest, ops: seq<Op>, op: Op)
    ensures Run(up, ops + [op]) == Apply(Run(up, ops), op).1
    decreases |ops|
  {
    if ops == [] {
      assert [op][1..] == [];
    } else {
      assert (ops + [op])[0] == ops[0] && (ops + [op])[1..] == ops[1..] + [op];
      RunSnoc(Apply(up, ops[0]).1, ops[1..], op);
    }
  }

  /** The last of the chain stands exactly n hops below its root; its names are the first n + 1. */
  ghost predicate Grown(up: Forest, n: nat) {
    && ForestInv(up) && Name(0) in up && up[Name(0)] == None && Name(n) in up
    && Hop(up, Name(n), n) == Some(Name(0)) && Hop(up, Name(n), n + 1) == None
    && (forall k :: k in up ==> |k| <= n + 1 && k != "r")
  }

  lemma {:induction false} ChainGrows(n: nat)
    requires n <= 32
    ensures Grown(Run(map[], Grow(n)), n)
  {
    if n == 0 {
      FirstGrown();
    } else {
      ChainGrows(n - 1);
      var up := Run(map[], Grow(n - 1));
      RunSnoc(map[], Grow(n - 1), Create(Name(n), Some(Name(n - 1)), true));
      NextGrown(up, n);
    }
  }

  lemma FirstGrown()
    ensures Grown(Run(map[], Grow(0)), 0)
  {
    var none: Forest := map[];
    var op := Create(Name(0), None, true);
    assert Grow(0) == [] + [op];
    RunSnoc(none, [], op);
    AddLeaf(none, Name(0), None);
    assert Name(0)[0] == 'x';
  }

  lemma NextGrown(up: Forest, n: nat)
    requires 0 < n <= 32 && Grown(up, n - 1)
    ensures Grown(Apply(up, Create(Name(n), Some(Name(n - 1)), true)).1, n)
  {
    var p := Name(n - 1);
    Beyond(up, p, n, 32);
    forall i: nat | i < 32 ensures Hop(up, p, i) != Some("") { HopStays(up, p, i); }
    ShortWalkAccepted(up, "", p);
    assert |Name(n)| > n && |p| > 0;
    AddLeaf(up, Name(n), Some(p));
  }

  /** Putting a new root above the root of a department accepts both requests and makes its walk one hop longer. */
  lemma NewTop(up: Forest, k: Id, root: Id, r: Id, n: nat)
    requires ForestInv(up) && k in up && Hop(up, k, n) == Some(root) && root in up && up[root] == None
    requires r !in up && r != ""
    ensures var up1 := Apply(up, Create(r, None, true)).1;
      var up2 := Apply(up1, Update(root, Some(r), true)).1;
      Hop(up2, k, n + 1) == Some(r)
  {
    var up1 := up[r := None];
    var up2 := up1[root := Some(r)];
    AddLeaf(up, r, None);
    assert Check(up1, root, Some(r)) == Walk(up1, root, r, 0) == Accepted;
    forall i: nat | i < n ensures Hop(up1, k, i) != Some(root) {
      HopAdd(up1, k, i, n - i);
      assert Hop(up1, root, n - i) == None;
    }
    HopAvoids(up1, up2, root, k, n);
    HopAdd(up2, k, n, 1);
    assert Hop(up2, root, 1) == Hop(up2, r, 0);
  }

  /** A chain of n + 1 departments, then a new root and the top of the chain moved under it. */
  function GrowAndLift(n: nat): seq<Op> {
    Grow(n) + [Create("r", None, true)] + [Update(Name(0), Some("r"), true)]
  }

  lemma Lifted(n: nat)
    requires n <= 32
    ensures Hop(Run(map[], GrowAndLift(n)), Name(n), n + 1) == Some("r")
  {
    ChainGrows(n);
    NewTop(Run(map[], Grow(n)), Name(n), Name(0), "r", n);
    RunSnoc(map[], Grow(n), Create("r", None, true));
    RunSnoc(map[], Grow(n) + [Create("r", None, true)], Update(Name(0), Some("r"), true));
  }

  /** Lifting a chain of 33 departments: the last one ends with 33 ancestors. */
  lemma TooDeep()
    ensures Hop(Run(map[], GrowAndLift(32)), Name(32), 33) == Some("r")
  {
    Lifted(32);
  }
}
