/** Chains of single parent pointers: department parents and role inheritance. */
module Hops {
  import opened Common

  /** The ancestor n steps up. */
  function Hop<K(==)>(up: map<K, Option<K>>, k: K, n: nat): Option<K> {
    if n == 0 then Some(k)
    else if k in up && up[k].Some? then Hop(up, up[k].value, n - 1)
    else None
  }

  ghost predicate Closed<K(!new)>(up: map<K, Option<K>>) {
    forall k :: k in up && up[k].Some? ==> up[k].value in up
  }

  ghost predicate Acyclic<K(!new)>(up: map<K, Option<K>>) {
    forall k, n: nat :: k in up && n > 0 ==> Hop(up, k, n) != Some(k)
  }

  lemma {:induction false} HopAdd<K>(up: map<K, Option<K>>, k: K, m: nat, n: nat)
    ensures Hop(up, k, m + n) == match Hop(up, k, m) case Some(x) => Hop(up, x, n) case None => None
  {
    if m > 0 && k in up && up[k].Some? {
      HopAdd(up, up[k].value, m - 1, n);
    }
  }

  lemma {:induction false} HopStays<K(!new)>(up: map<K, Option<K>>, k: K, n: nat)
    requires Closed(up) && k in up
    ensures Hop(up, k, n).Some? ==> Hop(up, k, n).value in up
  {
    if n > 0 && up[k].Some? {
      HopStays(up, up[k].value, n - 1);
    }
  }

  /** Changing the pointer of one node does not change walks that do not leave that node. */
  lemma {:induction false} HopAvoids<K>(up: map<K, Option<K>>, up': map<K, Option<K>>, k: K, x: K, n: nat)
    requires forall y :: y != k ==> (y in up <==> y in up') && (y in up ==> up[y] == up'[y])
    requires forall i: nat :: i < n ==> Hop(up, x, i) != Some(k)
    ensures Hop(up', x, n) == Hop(up, x, n)
  {
    if n > 0 {
      assert Hop(up, x, 0) == Some(x);
      if x in up && up[x].Some? {
        forall i: nat | i < n - 1 ensures Hop(up, up[x].value, i) != Some(k) {
          assert Hop(up, x, i + 1) == Hop(up, up[x].value, i);
        }
        HopAvoids(up, up', k, up[x].value, n - 1);
      }
    }
  }

  /** If some walk reaches k, there is a first time it does. */
  lemma {:induction false} FirstVisit<K>(up: map<K, Option<K>>, x: K, k: K, n: nat) returns (m: nat)
    requires Hop(up, x, n) == Some(k)
    ensures m <= n && Hop(up, x, m) == Some(k) && forall i: nat :: i < m ==> Hop(up, x, i) != Some(k)
  {
    if i: nat :| i < n && Hop(up, x, i) == Some(k) {
      m := FirstVisit(up, x, k, i);
    } else {
      m := n;
    }
  }

  lemma AddLeaf<K(!new)>(up: map<K, Option<K>>, k: K, p: Option<K>)
    requires Closed(up) && Acyclic(up) && k !in up && (p.Some? ==> p.value in up)
    ensures Closed(up[k := p]) && Acyclic(up[k := p])
    ensures forall x, n: nat :: x in up ==> Hop(up[k := p], x, n) == Hop(up, x, n)
  {
    var up' := up[k := p];
    forall x, n: nat | x in up ensures Hop(up', x, n) == Hop(up, x, n) {
      forall i: nat | i < n ensures Hop(up, x, i) != Some(k) { HopStays(up, x, i); }
      HopAvoids(up, up', k, x, n);
    }
    forall x, n: nat | x in up' && n > 0 ensures Hop(up', x, n) != Some(x) {
      if x == k && p.Some? {
        assert Hop(up', k, n) == Hop(up', p.value, n - 1) == Hop(up, p.value, n - 1);
        HopStays(up, p.value, n - 1);
      }
    }
  }

  /** A cycle can be started from any node on it. */
  lemma CycleTurns<K>(up: map<K, Option<K>>, x: K, k: K, m: nat, n: nat)
    requires m <= n && Hop(up, x, n) == Some(x) && Hop(up, x, m) == Some(k)
    ensures Hop(up, k, n) == Some(k)
  {
    HopAdd(up, x, m, n - m);
    HopAdd(up, k, n - m, m);
  }

  /** Hanging k under p keeps the graph acyclic when k is not on the walk up from p. */
  lemma Reparent<K(!new)>(up: map<K, Option<K>>, k: K, p: Option<K>)
    requires Closed(up) && Acyclic(up) && k in up
    requires p.Some? ==> p.value in up && forall n: nat :: Hop(up, p.value, n) != Some(k)
    ensures Closed(up[k := p]) && Acyclic(up[k := p])
    ensures p.Some? ==> forall n: nat :: Hop(up[k := p], p.value, n) == Hop(up, p.value, n)
  {
    var up' := up[k := p];
    if p.Some? {
      forall n: nat ensures Hop(up', p.value, n) == Hop(up, p.value, n) {
        HopAvoids(up, up', k, p.value, n);
      }
    }
    forall x, n: nat | x in up' && n > 0 ensures Hop(up', x, n) != Some(x) {
      if Hop(up', x, n) == Some(x) {
        if i: nat :| i < n && Hop(up, x, i) == Some(k) {
          var m := FirstVisit(up, x, k, i);
          HopAvoids(up, up', k, x, m);
          CycleTurns(up', x, k, m, n);
        } else {
          HopAvoids(up, up', k, x, n);
        }
      }
    }
  }

  /** Dropping edges or nodes cannot create a walk. */
  lemma {:induction false} HopShrinks<K>(up: map<K, Option<K>>, up': map<K, Option<K>>, x: K, n: nat)
    requires forall y :: y in up' ==> y in up && (up'[y] == up[y] || up'[y] == None)
    ensures Hop(up', x, n) == Hop(up, x, n) || Hop(up', x, n) == None
  {
    if n > 0 && x in up' && up'[x].Some? {
      HopShrinks(up, up', up'[x].value, n - 1);
    }
  }
}
