/** The install order: a depth-first walk over dependencies with shared state. */
module Resolve {
  import opened Common

  type Id = string

  /** The modules compiled into the binary, each with the modules it depends on. */
  type Mods = map<Id, seq<Id>>

  predicate Edge(mods: Mods, a: Id, b: Id) {
    a in mods && b in mods[a]
  }

  predicate Path(mods: Mods, p: seq<Id>) {
    p != [] && forall i :: 0 <= i < |p| - 1 ==> Edge(mods, p[i], p[i + 1])
  }

  ghost predicate Reaches(mods: Mods, a: Id, b: Id) {
    exists p :: Path(mods, p) && p[0] == a && p[|p| - 1] == b
  }

  ghost predicate OnCycle(mods: Mods, x: Id) {
    exists p :: Path(mods, p) && |p| >= 2 && p[0] == x && p[|p| - 1] == x
  }

  /** Everything the target needs is compiled in and nothing among it depends on itself. */
  ghost predicate Resolvable(mods: Mods, target: Id) {
    forall x :: Reaches(mods, target, x) ==> x in mods && !OnCycle(mods, x)
  }

  /** Every module comes after all it depends on. */
  ghost predicate DepsFirst(mods: Mods, order: seq<Id>) {
    forall i :: 0 <= i < |order| ==> order[i] in mods && forall d :: d in mods[order[i]] ==> d in order[..i]
  }

  lemma PathJoin(mods: Mods, p: seq<Id>, q: seq<Id>)
    requires Path(mods, p) && Path(mods, q) && p[|p| - 1] == q[0]
    ensures Path(mods, p + q[1..])
    ensures (p + q[1..])[|p + q[1..]| - 1] == q[|q| - 1]
  {
    var r := p + q[1..];
    forall i | 0 <= i < |r| - 1 ensures Edge(mods, r[i], r[i + 1]) {
      if i >= |p| - 1 {
        assert Edge(mods, q[i - |p| + 1], q[i - |p| + 2]);
        assert r[i] == q[i - |p| + 1];
      }
    }
  }

  lemma PathStep(mods: Mods, p: seq<Id>, d: Id)
    requires Path(mods, p) && Edge(mods, p[|p| - 1], d)
    ensures Path(mods, p + [d])
  {
  }

  /** A path that repeats a module runs round a cycle it reaches. */
  lemma RepeatIsCycle(mods: Mods, p: seq<Id>, i: nat, j: nat)
    requires Path(mods, p) && i < j < |p| && p[i] == p[j]
    ensures Reaches(mods, p[0], p[i]) && OnCycle(mods, p[i])
  {
    var a, b := p[..i + 1], p[i..j + 1];
    forall k | 0 <= k < |b| - 1 ensures Edge(mods, b[k], b[k + 1]) {
      assert Edge(mods, p[i + k], p[i + k + 1]);
    }
    assert Path(mods, a) && a[0] == p[0] && a[|a| - 1] == p[i];
    assert Path(mods, b) && b[0] == p[i] && b[|b| - 1] == p[i];
  }

  // ---- what a finished order means ----------------------------------------------------------------------------

  /** Along any path, the positions in a dependency-first order go strictly down. */
  lemma {:induction false} PathGoesDown(mods: Mods, order: seq<Id>, p: seq<Id>, i: nat)
    requires DepsFirst(mods, order) && Path(mods, p) && i < |order| && order[i] == p[0]
    ensures forall k :: 0 <= k < |p| ==> p[k] in order[..i + 1]
    ensures forall k :: 1 <= k < |p| ==> p[k] in order[..i]
    decreases |p|
  {
    assert order[i] in order[..i + 1];
    if |p| > 1 {
      assert Edge(mods, p[0], p[1]);
      var j :| 0 <= j < i && order[j] == p[1];
      var q := p[1..];
      forall k | 0 <= k < |q| - 1 ensures Edge(mods, q[k], q[k + 1]) { assert Edge(mods, p[k + 1], p[k + 2]); }
      PathGoesDown(mods, order, q, j);
      forall k | 1 <= k < |p| ensures p[k] in order[..i] {
        assert p[k] == q[k - 1];
        assert order[..j + 1] <= order[..i];
      }
      assert order[..i] <= order[..i + 1];
    }
  }

  lemma NotBefore(order: seq<Id>, j: nat)
    requires Distinct(order) && j < |order|
    ensures order[j] !in order[..j]
  {
  }

  lemma OrderResolves(mods: Mods, order: seq<Id>, target: Id)
    requires Distinct(order) && DepsFirst(mods, order) && target in order
    ensures Resolvable(mods, target)
    ensures forall x :: Reaches(mods, target, x) ==> x in order
  {
    var i :| 0 <= i < |order| && order[i] == target;
    forall x | Reaches(mods, target, x) ensures x in order && x in mods && !OnCycle(mods, x) {
      var p :| Path(mods, p) && p[0] == target && p[|p| - 1] == x;
      PathGoesDown(mods, order, p, i);
      var j :| 0 <= j < i + 1 && order[j] == x;
      NotBefore(order, j);
      if OnCycle(mods, x) {
        var c :| Path(mods, c) && |c| >= 2 && c[0] == x && c[|c| - 1] == x;
        PathGoesDown(mods, order, c, j);
        assert false;
      }
    }
  }

  // ---- the walk -------------------------------------------------------------------------------------------------

  datatype Mark = Active | Finished

  /** The active modules are those of the stack, a path; the finished ones make up the order. */
  ghost predicate Consistent(mods: Mods, state: map<Id, Mark>, order: seq<Id>, stack: seq<Id>) {
    && state.Keys <= mods.Keys
    && (forall x :: x in stack <==> x in state && state[x] == Active)
    && (forall x :: x in order <==> x in state && state[x] == Finished)
    && Distinct(order) && DepsFirst(mods, order)
    && (stack != [] ==> Path(mods, stack))
  }

  /** Something reached from the root is missing or on a cycle. */
  ghost predicate Broken(mods: Mods, root: Id) {
    exists x :: Reaches(mods, root, x) && (x !in mods || OnCycle(mods, x))
  }

  lemma Enter(mods: Mods, state: map<Id, Mark>, order: seq<Id>, stack: seq<Id>, k: Id)
    requires Consistent(mods, state, order, stack) && k in mods && k !in state
    requires stack != [] ==> Edge(mods, stack[|stack| - 1], k)
    ensures Consistent(mods, state[k := Active], order, stack + [k])
  {
    if stack != [] { PathStep(mods, stack, k); }
  }

  lemma Leave(mods: Mods, state: map<Id, Mark>, order: seq<Id>, stack: seq<Id>, k: Id)
    requires Consistent(mods, state, order, stack + [k]) && k !in stack
    requires k in mods && forall d :: d in mods[k] ==> d in order
    ensures Consistent(mods, state[k := Finished], order + [k], stack)
  {
    var path, order' := stack + [k], order + [k];
    assert path[|stack|] == k && k in path && k !in order;
    forall x ensures x in stack <==> x in path && x != k {}
    if stack != [] {
      forall i | 0 <= i < |stack| - 1 ensures Edge(mods, stack[i], stack[i + 1]) {
        assert Edge(mods, path[i], path[i + 1]);
      }
    }
    forall i | 0 <= i < |order'|
      ensures order'[i] in mods && forall d :: d in mods[order'[i]] ==> d in order'[..i]
    {
      if i < |order| { assert order'[..i] == order[..i]; } else { assert order'[..i] == order; }
    }
  }

  /** Coming back to an active module closes a cycle. */
  lemma BackToActive(mods: Mods, stack: seq<Id>, k: Id)
    requires k in stack && Path(mods, stack) && Edge(mods, stack[|stack| - 1], k)
    ensures Broken(mods, stack[0])
  {
    var i :| 0 <= i < |stack| && stack[i] == k;
    PathStep(mods, stack, k);
    RepeatIsCycle(mods, stack + [k], i, |stack|);
  }

  lemma MissingDep(mods: Mods, path: seq<Id>, d: Id)
    requires Path(mods, path) && Edge(mods, path[|path| - 1], d) && d !in mods
    ensures Broken(mods, path[0])
  {
    PathStep(mods, path, d);
    assert (path + [d])[0] == path[0];
    assert Reaches(mods, path[0], d);
  }

  lemma ReachesVia(mods: Mods, k: Id, d: Id, x: Id)
    requires Edge(mods, k, d) && Reaches(mods, d, x)
    ensures Reaches(mods, k, x)
  {
    var p :| Path(mods, p) && p[0] == d && p[|p| - 1] == x;
    PathJoin(mods, [k, d], p);
    assert ([k, d] + p[1..])[0] == k;
  }

  class Resolver {
    const mods: Mods
    var state: map<Id, Mark>
    var order: seq<Id>

    constructor (mods: Mods)
      ensures this.mods == mods && state == map[] && order == []
    {
      this.mods, state, order := mods, map[], [];
    }

    ghost predicate Valid(stack: seq<Id>)
      reads this
    {
      Consistent(mods, state, order, stack)
    }

    /** Everything added to the order since is reached from k. */
    ghost predicate AddedFrom(before: seq<Id>, k: Id)
      reads this
    {
      before <= order && forall x :: x in order && x !in before ==> Reaches(mods, k, x)
    }

    /** visit: on success the module and what it reaches are in the order and the marks of the callers are as
        before; on failure the walk has found a missing module or a cycle. */
    method Visit(k: Id, ghost stack: seq<Id>) returns (ok: bool)
      requires k in mods && Valid(stack) && (stack != [] ==> Edge(mods, stack[|stack| - 1], k))
      modifies this
      decreases mods.Keys - state.Keys, 1
      ensures state.Keys >= old(state.Keys)
      ensures ok ==> Valid(stack) && k in order && AddedFrom(old(order), k)
      ensures ok && k !in old(order) ==> order[|order| - 1] == k
      ensures !ok ==> Broken(mods, (stack + [k])[0])
    {
      ghost var path := stack + [k];
      if k in state {
        if state[k] == Active { BackToActive(mods, stack, k); }
        return state[k] == Finished;
      }
      Enter(mods, state, order, stack, k);
      state := state[k := Active];
      ok := VisitDependencies(k, path);
      if !ok { return; }
      Leave(mods, state, order, stack, k);
      state := state[k := Finished];
      order := order + [k];
      assert Path(mods, [k]) && [k][0] == k;
    }

    /** The loop over the dependencies of the module on top of the stack. */
    method VisitDependencies(k: Id, ghost path: seq<Id>) returns (ok: bool)
      requires Valid(path) && path != [] && path[|path| - 1] == k && k in mods
      modifies this
      decreases mods.Keys - state.Keys, 3
      ensures state.Keys >= old(state.Keys)
      ensures ok ==> Valid(path) && AddedFrom(old(order), k) && forall d :: d in mods[k] ==> d in order
      ensures !ok ==> Broken(mods, path[0])
    {
      ghost var before := order;
      var i := 0;
      while i < |mods[k]|
        invariant i <= |mods[k]|
        invariant Valid(path) && state.Keys >= old(state.Keys) && AddedFrom(before, k)
        invariant forall d :: d in mods[k][..i] ==> d in order
      {
        ok := VisitDependency(k, mods[k][i], path, before);
        if !ok { return; }
        assert mods[k][..i + 1] == mods[k][..i] + [mods[k][i]];
        i := i + 1;
      }
      assert mods[k][..i] == mods[k];
      ok := true;
    }

    /** One round of the loop over the dependencies. */
    method VisitDependency(k: Id, d: Id, ghost path: seq<Id>, ghost before: seq<Id>) returns (ok: bool)
      requires Valid(path) && path != [] && path[|path| - 1] == k && Edge(mods, k, d) && AddedFrom(before, k)
      modifies this
      decreases mods.Keys - state.Keys, 2
      ensures state.Keys >= old(state.Keys)
      ensures ok ==> Valid(path) && d in order && old(order) <= order && AddedFrom(before, k)
      ensures !ok ==> Broken(mods, path[0])
    {
      if d !in mods {
        MissingDep(mods, path, d);
        return false;
      }
      ok := Visit(d, path);
      if ok {
        forall x | x in order && x !in before ensures Reaches(mods, k, x) {
          if x !in old(order) { ReachesVia(mods, k, d, x); }
        }
      }
    }
  }

  /** ResolveOrder terminates, and succeeds exactly when everything the target reaches is compiled in and free of
      cycles. The order is then exactly what the target reaches, each once, dependencies first, the target last. */
  method ResolveOrder(mods: Mods, target: Id) returns (r: Option<seq<Id>>)
    requires target in mods
    ensures r.Some? <==> Resolvable(mods, target)
    ensures r.Some? ==> Distinct(r.value) && DepsFirst(mods, r.value)
    ensures r.Some? ==> forall x :: x in r.value <==> Reaches(mods, target, x)
    ensures r.Some? ==> r.value != [] && r.value[|r.value| - 1] == target
  {
    var resolver := new Resolver(mods);
    var ok := resolver.Visit(target, []);
    if !ok { return None; }
    OrderResolves(mods, resolver.order, target);
    r := Some(resolver.order);
  }
}
