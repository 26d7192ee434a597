/** The department list laid out as a tree, depth first. */
module DepartmentTree {
  import opened Common
  import opened Hops

  type Id = string
  datatype Dept = Dept(id: Id, parent: Option<Id>)
  datatype Entry = Entry(d: Dept, depth: nat)

  const MAX_DEPTH := 32

  predicate Listed(list: seq<Dept>, id: Id) {
    exists i :: 0 <= i < |list| && list[i].id == id
  }

  /** The key a department is filed under: its parent if that is in the list, else the top level. */
  function Key(list: seq<Dept>, d: Dept): Option<Id> {
    if d.parent.Some? && d.parent.value != "" && Listed(list, d.parent.value) then d.parent else None
  }

  /** The departments among the first n that are filed under k, in list order. */
  function KidsIn(list: seq<Dept>, k: Option<Id>, n: nat): seq<Dept>
    requires n <= |list|
  {
    if n == 0 then []
    else KidsIn(list, k, n - 1) + (if Key(list, list[n - 1]) == k then [list[n - 1]] else [])
  }

  function Kids(list: seq<Dept>, k: Option<Id>): seq<Dept> {
    KidsIn(list, k, |list|)
  }

  /** What walking the departments ds at this depth emits. */
  function Layout(list: seq<Dept>, ds: seq<Dept>, depth: nat): seq<Entry>
    requires depth <= MAX_DEPTH
    decreases MAX_DEPTH - depth, |ds|
  {
    if ds == [] then []
    else [Entry(ds[0], depth)] + Below(list, ds[0], depth) + Layout(list, ds[1..], depth)
  }

  /** What is emitted below one department. */
  function Below(list: seq<Dept>, d: Dept, depth: nat): seq<Entry>
    requires depth <= MAX_DEPTH
    decreases MAX_DEPTH - depth, 0
  {
    if depth < MAX_DEPTH then Layout(list, Kids(list, Some(d.id)), depth + 1) else []
  }

  class Flattener {
    const list: seq<Dept>
    var byParent: map<Option<Id>, seq<Dept>>
    var out: seq<Entry>

    constructor (list: seq<Dept>)
      ensures this.list == list && byParent == map[] && out == []
    {
      this.list := list;
      byParent := map[];
      out := [];
    }

    method FileAll()
      requires byParent == map[]
      modifies this`byParent
      ensures byParent == Index(list, |list|)
    {
      for i := 0 to |list|
        invariant byParent == Index(list, i)
      {
        var k := Key(list, list[i]);
        byParent := byParent[k := At(byParent, k) + [list[i]]];
      }
    }

    method Walk(parent: Option<Id>, depth: nat)
      requires byParent == Index(list, |list|) && depth <= MAX_DEPTH
      modifies this`out
      ensures out == old(out) + Layout(list, Kids(list, parent), depth)
      decreases MAX_DEPTH - depth
    {
      var ds := At(byParent, parent);
      IndexIsKids(list, parent, |list|);
      var i := 0;
      while i < |ds|
        invariant 0 <= i <= |ds|
        invariant out + Layout(list, ds[i..], depth) == old(out) + Layout(list, ds, depth)
      {
        var d := ds[i];
        LayoutStep(list, ds, i, depth, out);
        out := out + [Entry(d, depth)];
        if depth < 32 {
          Walk(Some(d.id), depth + 1);
        }
        i := i + 1;
      }
    }
  }

  function At(m: map<Option<Id>, seq<Dept>>, k: Option<Id>): seq<Dept> {
    if k in m then m[k] else []
  }

  /** byParent after the first n departments were filed. */
  function Index(list: seq<Dept>, n: nat): map<Option<Id>, seq<Dept>>
    requires n <= |list|
  {
    if n == 0 then map[]
    else
      var m := Index(list, n - 1);
      var k := Key(list, list[n - 1]);
      m[k := At(m, k) + [list[n - 1]]]
  }

  lemma {:induction false} IndexIsKids(list: seq<Dept>, k: Option<Id>, n: nat)
    requires n <= |list|
    ensures At(Index(list, n), k) == KidsIn(list, k, n)
  {
    if n > 0 {
      IndexIsKids(list, k, n - 1);
      assert KidsIn(list, k, n - 1) + [] == KidsIn(list, k, n - 1);
    }
  }

  lemma LayoutStep(list: seq<Dept>, ds: seq<Dept>, i: nat, depth: nat, out: seq<Entry>)
    requires i < |ds| && depth <= MAX_DEPTH
    ensures out + Layout(list, ds[i..], depth)
         == out + [Entry(ds[i], depth)] + Below(list, ds[i], depth) + Layout(list, ds[i + 1..], depth)
    ensures out + [Entry(ds[i], depth)] + [] == out + [Entry(ds[i], depth)]
  {
    assert ds[i..][0] == ds[i] && ds[i..][1..] == ds[i + 1..];
    var rest := Layout(list, ds[i + 1..], depth);
    assert Layout(list, ds[i..], depth) == [Entry(ds[i], depth)] + Below(list, ds[i], depth) + rest;
    assert out + ([Entry(ds[i], depth)] + Below(list, ds[i], depth) + rest)
        == out + [Entry(ds[i], depth)] + Below(list, ds[i], depth) + rest;
  }

  /** flatten. */
  method Flatten(list: seq<Dept>) returns (out: seq<Entry>)
    ensures out == Layout(list, Kids(list, None), 0)
  {
    var f := new Flattener(list);
    f.FileAll();
    f.Walk(None, 0);
    out := f.out;
  }

  // ---- what the layout is worth --------------------------------------------------------------------

  function IdAt(list: seq<Dept>, i: nat): Id
    requires i < |list|
  {
    list[i].id
  }

  ghost predicate UniqueIds(list: seq<Dept>) {
    forall i: nat, j: nat :: i < j < |list| ==> IdAt(list, i) != IdAt(list, j)
  }

  type Graph = map<Id, Option<Id>>

  /** up is the parent graph as the page sees it: each listed id with the key it is filed under. */
  ghost predicate Indexed(list: seq<Dept>, up: Graph) {
    && UniqueIds(list)
    && (forall d :: d in list ==> d.id in up && up[d.id] == Key(list, d))
    && (forall id :: id in up ==> Listed(list, id))
  }

  /** A list with distinct ids has exactly one such graph. */
  lemma GraphOf(list: seq<Dept>) returns (up: Graph)
    requires UniqueIds(list)
    ensures Indexed(list, up) && forall g :: Indexed(list, g) ==> g == up
  {
    var ids := set i | 0 <= i < |list| :: list[i].id;
    up := map id | id in ids :: var i :| 0 <= i < |list| && list[i].id == id; Key(list, list[i]);
    forall d | d in list ensures d.id in up && up[d.id] == Key(list, d) {
      var i :| 0 <= i < |list| && list[i] == d;
      assert list[i].id in ids;
      var j :| 0 <= j < |list| && list[j].id == d.id && up[d.id] == Key(list, list[j]);
      SameDept(list, d, list[j]);
    }
    forall g | Indexed(list, g) ensures g == up {
      forall id ensures id in g <==> id in up {
        if Listed(list, id) { var i :| 0 <= i < |list| && list[i].id == id; assert list[i] in list; }
      }
      forall id | id in g ensures g[id] == up[id] {
        var i :| 0 <= i < |list| && list[i].id == id;
        assert list[i] in list;
      }
    }
  }

  /** The walk up from this department ends. */
  ghost predicate Ends(up: Graph, id: Id) {
    exists n: nat :: Hop(up, id, n) == None
  }

  ghost predicate AllEnd(up: Graph, ds: seq<Dept>) {
    forall d :: d in ds ==> Ends(up, d.id)
  }

  /** A walk that ends does not come back. */
  lemma EndsNoLoop(up: Graph, id: Id, m: nat)
    requires Ends(up, id) && m > 0
    ensures Hop(up, id, m) != Some(id)
  {
    var n: nat :| Hop(up, id, n) == None;
    if Hop(up, id, m) == Some(id) { NeverEnds(up, id, m, n); }
  }

  lemma {:induction false} NeverEnds(up: Graph, id: Id, m: nat, n: nat)
    requires m > 0 && Hop(up, id, m) == Some(id)
    ensures Hop(up, id, n) != None
    decreases n
  {
    if n >= m {
      HopAdd(up, id, m, n - m);
      NeverEnds(up, id, m, n - m);
    } else {
      HopAdd(up, id, n, m - n);
    }
  }

  lemma EndsBelow(up: Graph, d: Id, a: Id, m: nat)
    requires Hop(up, d, m) == Some(a)
    ensures Ends(up, d) <==> Ends(up, a)
  {
    if n: nat :| Hop(up, a, n) == None {
      HopAdd(up, d, m, n);
      assert Hop(up, d, m + n) == None;
    }
    if n: nat :| Hop(up, d, n) == None {
      if n <= m { HopAdd(up, d, n, m - n); } else { HopAdd(up, d, m, n - m); }
      assert n > m && Hop(up, a, n - m) == None;
    }
  }

  lemma KidsEnd(list: seq<Dept>, up: Graph, k: Option<Id>)
    requires Indexed(list, up) && (k.Some? ==> Ends(up, k.value))
    ensures AllEnd(up, Kids(list, k))
  {
    KidsAreSiblings(list, k);
    forall d | d in Kids(list, k) ensures Ends(up, d.id) {
      if k.Some? {
        assert Hop(up, d.id, 1) == Hop(up, k.value, 0);
        EndsBelow(up, d.id, k.value, 1);
      } else {
        assert Hop(up, d.id, 1) == None;
      }
    }
  }

  /** ds are different listed departments filed under the same key. */
  ghost predicate Siblings(list: seq<Dept>, ds: seq<Dept>, k: Option<Id>) {
    Distinct(ds) && forall d :: d in ds ==> d in list && Key(list, d) == k
  }

  lemma {:induction false} KidsExact(list: seq<Dept>, k: Option<Id>, n: nat)
    requires n <= |list|
    ensures forall d :: d in KidsIn(list, k, n) <==> d in list[..n] && Key(list, d) == k
  {
    if n > 0 {
      KidsExact(list, k, n - 1);
      assert list[..n] == list[..n - 1] + [list[n - 1]];
    }
  }

  lemma {:induction false} KidsDistinct(list: seq<Dept>, k: Option<Id>, n: nat)
    requires n <= |list| && UniqueIds(list)
    ensures Distinct(KidsIn(list, k, n))
  {
    if n > 0 {
      KidsDistinct(list, k, n - 1);
      KidsExact(list, k, n - 1);
      var earlier, last := KidsIn(list, k, n - 1), list[n - 1];
      forall d | d in earlier ensures d != last {
        assert d in list[..n - 1];
        var i :| 0 <= i < n - 1 && list[..n - 1][i] == d;
        assert IdAt(list, i) != IdAt(list, n - 1);
      }
    }
  }

  lemma KidsAreSiblings(list: seq<Dept>, k: Option<Id>)
    requires UniqueIds(list)
    ensures Siblings(list, Kids(list, k), k)
  {
    KidsExact(list, k, |list|);
    KidsDistinct(list, k, |list|);
    assert list[..|list|] == list;
  }

  lemma InKids(list: seq<Dept>, k: Option<Id>, d: Dept)
    requires d in list && Key(list, d) == k
    ensures d in Kids(list, k)
  {
    KidsExact(list, k, |list|);
    assert list[..|list|] == list;
  }

  lemma SameDept(list: seq<Dept>, d: Dept, e: Dept)
    requires UniqueIds(list) && d in list && e in list && d.id == e.id
    ensures d == e
  {
    var i :| 0 <= i < |list| && list[i] == d;
    var j :| 0 <= j < |list| && list[j] == e;
    assert IdAt(list, i) == IdAt(list, j);
  }

  // ---- exactly the listed departments, at their depth ------------------------------------------------

  /** d stands n levels below x. */
  predicate Under(up: Graph, d: Dept, x: Dept, n: nat) {
    Hop(up, d.id, n) == Some(x.id)
  }

  lemma KidUnder(list: seq<Dept>, up: Graph, d: Dept, y: Dept, x: Dept, n: nat)
    requires Indexed(list, up) && y in Kids(list, Some(x.id)) && Under(up, d, y, n)
    ensures y in list && Under(up, d, x, n + 1)
  {
    KidsAreSiblings(list, Some(x.id));
    HopAdd(up, d.id, n, 1);
    assert Hop(up, y.id, 1) == Some(x.id);
  }

  /** Everything emitted stands, by its depth, below one of the departments walked. */
  lemma {:induction false} LayoutSound(list: seq<Dept>, up: Graph, ds: seq<Dept>, depth: nat, e: Entry)
    returns (x: Dept)
    requires Indexed(list, up) && depth <= MAX_DEPTH && (forall d :: d in ds ==> d in list)
      && e in Layout(list, ds, depth)
    ensures e.d in list && depth <= e.depth <= MAX_DEPTH && x in ds && Under(up, e.d, x, e.depth - depth)
    decreases MAX_DEPTH - depth, 1, |ds|
  {
    if e == Entry(ds[0], depth) {
      x := ds[0];
    } else if e in Below(list, ds[0], depth) {
      BelowSound(list, up, ds[0], depth, e);
      x := ds[0];
    } else {
      x := LayoutSound(list, up, ds[1..], depth, e);
    }
  }

  lemma {:induction false} BelowSound(list: seq<Dept>, up: Graph, d: Dept, depth: nat, e: Entry)
    requires Indexed(list, up) && depth <= MAX_DEPTH && d in list && e in Below(list, d, depth)
    ensures e.d in list && depth < e.depth <= MAX_DEPTH && Under(up, e.d, d, e.depth - depth)
    decreases MAX_DEPTH - depth, 0, 0
  {
    KidsAreSiblings(list, Some(d.id));
    var y := LayoutSound(list, up, Kids(list, Some(d.id)), depth + 1, e);
    KidUnder(list, up, e.d, y, d, e.depth - depth - 1);
  }

  /** Everything that stands n levels below a department walked is emitted, n levels deeper. */
  lemma {:induction false} LayoutComplete(list: seq<Dept>, up: Graph, ds: seq<Dept>, depth: nat, d: Dept, x: Dept,
                                          n: nat)
    requires Indexed(list, up) && depth + n <= MAX_DEPTH && d in list && x in ds && (forall y :: y in ds ==> y in list)
    requires Under(up, d, x, n)
    ensures Entry(d, depth + n) in Layout(list, ds, depth)
    decreases n, |ds|
  {
    HeadLayout(list, ds, depth);
    if ds[0] != x {
      LayoutComplete(list, up, ds[1..], depth, d, x, n);
    } else if n == 0 {
      SameDept(list, d, x);
    } else {
      var y := ParentOf(list, up, d, n, x);
      InKids(list, Some(x.id), y);
      KidsAreSiblings(list, Some(x.id));
      LayoutComplete(list, up, Kids(list, Some(x.id)), depth + 1, d, y, n - 1);
    }
  }

  lemma ParentOf(list: seq<Dept>, up: Graph, d: Dept, n: nat, x: Dept) returns (y: Dept)
    requires Indexed(list, up) && d in list && n > 0 && Under(up, d, x, n)
    ensures y in list && Key(list, y) == Some(x.id) && Under(up, d, y, n - 1)
  {
    HopAdd(up, d.id, n - 1, 1);
    var id := Hop(up, d.id, n - 1).value;
    assert id in up;
    var i :| 0 <= i < |list| && list[i].id == id;
    y := list[i];
  }

  // ---- each once ---------------------------------------------------------------------------------------

  /** Of two siblings neither stands below the other. */
  lemma NotAbove(list: seq<Dept>, up: Graph, a: Dept, b: Dept, n: nat)
    requires Indexed(list, up) && a in list && b in list && a != b && Key(list, a) == Key(list, b) && Ends(up, a.id)
    ensures !Under(up, a, b, n)
  {
    if n == 0 {
      if a.id == b.id { SameDept(list, a, b); }
    } else if up[a.id].Some? {
      var k := up[a.id].value;
      assert Hop(up, a.id, 1) == Hop(up, k, 0);
      EndsBelow(up, a.id, k, 1);
      HopAdd(up, k, n - 1, 1);
      var i :| 0 <= i < |list| && list[i].id == k;
      assert Hop(up, b.id, 1) == Some(k);
      EndsNoLoop(up, k, n);
    }
  }

  /** No department stands below two different siblings. */
  lemma SiblingsApart(list: seq<Dept>, up: Graph, d: Dept, a: Dept, b: Dept, m: nat, n: nat)
    requires Indexed(list, up) && a in list && b in list && a != b && Key(list, a) == Key(list, b)
    requires Ends(up, a.id) && Ends(up, b.id) && Under(up, d, a, m)
    ensures !Under(up, d, b, n)
  {
    if m <= n {
      HopAdd(up, d.id, m, n - m);
      NotAbove(list, up, a, b, n - m);
    } else {
      HopAdd(up, d.id, n, m - n);
      NotAbove(list, up, b, a, m - n);
    }
  }

  function Depts(es: seq<Entry>): seq<Dept> {
    if es == [] then [] else [es[0].d] + Depts(es[1..])
  }

  lemma {:induction false} DeptsConcat(a: seq<Entry>, b: seq<Entry>)
    ensures Depts(a + b) == Depts(a) + Depts(b)
  {
    if a == [] {
      assert a + b == b;
    } else {
      assert (a + b)[0] == a[0] && (a + b)[1..] == a[1..] + b;
      DeptsConcat(a[1..], b);
    }
  }

  lemma {:induction false} DeptsMember(es: seq<Entry>, d: Dept) returns (e: Entry)
    requires d in Depts(es)
    ensures e in es && e.d == d
  {
    if es[0].d == d { e := es[0]; } else { e := DeptsMember(es[1..], d); }
  }

  lemma DistinctConcat(a: seq<Dept>, b: seq<Dept>)
    requires Distinct(a) && Distinct(b) && forall d :: d in a ==> d !in b
    ensures Distinct(a + b)
  {
    forall i, j | 0 <= i < j < |a + b| ensures (a + b)[i] != (a + b)[j] {
      if i < |a| <= j { assert (a + b)[i] in a && (a + b)[j] in b; }
    }
  }

  lemma {:induction false} LayoutDistinct(list: seq<Dept>, up: Graph, ds: seq<Dept>, k: Option<Id>, depth: nat)
    requires Indexed(list, up) && depth <= MAX_DEPTH && Siblings(list, ds, k) && AllEnd(up, ds)
    ensures Distinct(Depts(Layout(list, ds, depth)))
    decreases MAX_DEPTH - depth, 1, |ds|
  {
    if ds != [] {
      var head, below, rest := [Entry(ds[0], depth)], Below(list, ds[0], depth), Layout(list, ds[1..], depth);
      BelowDistinct(list, up, ds[0], depth);
      LayoutDistinct(list, up, ds[1..], k, depth);
      DeptsConcat(head + below, rest);
      DeptsConcat(head, below);
      assert Depts(head) == [ds[0]];
      forall d | d in [ds[0]] ensures d !in Depts(below) {
        if d in Depts(below) {
          var e := DeptsMember(below, d);
          NotBelowItself(list, up, d, depth, e);
        }
      }
      DistinctConcat([ds[0]], Depts(below));
      forall d | d in Depts(head + below) ensures d !in Depts(rest) {
        if d in Depts(rest) {
          var e := DeptsMember(head + below, d);
          var e' := DeptsMember(rest, d);
          ApartInLayout(list, up, ds, k, depth, e, e');
        }
      }
      DistinctConcat(Depts(head + below), Depts(rest));
    }
  }

  lemma {:induction false} BelowDistinct(list: seq<Dept>, up: Graph, d: Dept, depth: nat)
    requires Indexed(list, up) && depth <= MAX_DEPTH && Ends(up, d.id)
    ensures Distinct(Depts(Below(list, d, depth)))
    decreases MAX_DEPTH - depth, 0, 0
  {
    if depth < MAX_DEPTH {
      KidsAreSiblings(list, Some(d.id));
      KidsEnd(list, up, Some(d.id));
      LayoutDistinct(list, up, Kids(list, Some(d.id)), Some(d.id), depth + 1);
    }
  }

  lemma NotBelowItself(list: seq<Dept>, up: Graph, d: Dept, depth: nat, e: Entry)
    requires Indexed(list, up) && depth <= MAX_DEPTH && d in list && Ends(up, d.id) && e in Below(list, d, depth)
    ensures e.d != d
  {
    BelowSound(list, up, d, depth, e);
    EndsNoLoop(up, d.id, e.depth - depth);
  }

  lemma ApartInLayout(list: seq<Dept>, up: Graph, ds: seq<Dept>, k: Option<Id>, depth: nat, e: Entry, e': Entry)
    requires Indexed(list, up) && depth <= MAX_DEPTH && Siblings(list, ds, k) && AllEnd(up, ds) && ds != []
    requires e in [Entry(ds[0], depth)] + Below(list, ds[0], depth) && e' in Layout(list, ds[1..], depth)
    ensures e.d != e'.d
  {
    var x, n := UnderRest(list, up, ds, k, depth, e');
    var m := UnderHead(list, up, ds[0], depth, e);
    SiblingsApart(list, up, e.d, ds[0], x, m, n);
  }

  lemma UnderHead(list: seq<Dept>, up: Graph, d: Dept, depth: nat, e: Entry) returns (m: nat)
    requires Indexed(list, up) && depth <= MAX_DEPTH && d in list && e in [Entry(d, depth)] + Below(list, d, depth)
    ensures e.d in list && e.depth == depth + m && Under(up, e.d, d, m) && (m == 0 ==> e.d == d)
  {
    if e == Entry(d, depth) { m := 0; } else { BelowSound(list, up, d, depth, e); m := e.depth - depth; }
  }

  lemma UnderRest(list: seq<Dept>, up: Graph, ds: seq<Dept>, k: Option<Id>, depth: nat, e: Entry)
    returns (x: Dept, n: nat)
    requires Indexed(list, up) && depth <= MAX_DEPTH && Siblings(list, ds, k) && ds != []
      && e in Layout(list, ds[1..], depth)
    ensures x in ds[1..] && x in list && x != ds[0] && Key(list, x) == k
    ensures e.d in list && e.depth == depth + n && Under(up, e.d, x, n) && (n == 0 ==> e.d == x)
  {
    x := LayoutSound(list, up, ds[1..], depth, e);
    n := e.depth - depth;
    var q :| 0 <= q < |ds[1..]| && ds[1..][q] == x;
    assert ds[q + 1] == x && ds[0] != x;
    if n == 0 { SameDept(list, e.d, x); }
  }

  lemma HeadLayout(list: seq<Dept>, ds: seq<Dept>, depth: nat)
    requires depth <= MAX_DEPTH && ds != []
    ensures Layout(list, [ds[0]], depth) == [Entry(ds[0], depth)] + Below(list, ds[0], depth)
    ensures Layout(list, ds, depth) == Layout(list, [ds[0]], depth) + Layout(list, ds[1..], depth)
  {
    assert [ds[0]][1..] == [];
    assert Layout(list, [], depth) == [];
  }

  // ---- preorder -----------------------------------------------------------------------------------------

  /** Entry j is the parent of entry i, and everything between them is below entry j. */
  ghost predicate ParentAt(list: seq<Dept>, out: seq<Entry>, i: nat, j: nat) {
    && j < i < |out|
    && out[j].depth + 1 == out[i].depth
    && Key(list, out[i].d) == Some(out[j].d.id)
    && forall m :: j < m < i ==> out[m].depth > out[j].depth
  }

  /** An entry at the top depth is filed under k; a deeper one follows its parent with only the
      parent's descendants in between. */
  ghost predicate PreorderAt(list: seq<Dept>, out: seq<Entry>, depth: nat, k: Option<Id>, i: nat)
    requires i < |out|
  {
    && out[i].depth >= depth
    && (out[i].depth == depth ==> Key(list, out[i].d) == k)
    && (out[i].depth > depth ==> exists j: nat :: ParentAt(list, out, i, j))
  }

  ghost predicate Preorder(list: seq<Dept>, out: seq<Entry>, depth: nat, k: Option<Id>) {
    forall i: nat :: i < |out| ==> PreorderAt(list, out, depth, k, i)
  }

  lemma PreorderStays(list: seq<Dept>, a: seq<Entry>, b: seq<Entry>, depth: nat, k: Option<Id>, i: nat)
    requires i < |a| && PreorderAt(list, a, depth, k, i)
    ensures PreorderAt(list, a + b, depth, k, i)
  {
    if a[i].depth > depth {
      var j: nat :| ParentAt(list, a, i, j);
      assert ParentAt(list, a + b, i, j);
    }
  }

  lemma ParentShifts(list: seq<Dept>, a: seq<Entry>, b: seq<Entry>, i: nat, j: nat)
    requires ParentAt(list, b, i, j)
    ensures ParentAt(list, a + b, i + |a|, j + |a|)
  {
    var c := a + b;
    forall m | j + |a| < m < i + |a| ensures c[m].depth > c[j + |a|].depth { assert c[m] == b[m - |a|]; }
  }

  lemma PreorderShifts(list: seq<Dept>, a: seq<Entry>, b: seq<Entry>, depth: nat, k: Option<Id>, i: nat)
    requires i < |b| && PreorderAt(list, b, depth, k, i)
    ensures PreorderAt(list, a + b, depth, k, i + |a|)
  {
    assert (a + b)[i + |a|] == b[i];
    if b[i].depth > depth {
      var j: nat :| ParentAt(list, b, i, j);
      ParentShifts(list, a, b, i, j);
    }
  }

  lemma PreorderConcat(list: seq<Dept>, a: seq<Entry>, b: seq<Entry>, depth: nat, k: Option<Id>)
    requires Preorder(list, a, depth, k) && Preorder(list, b, depth, k)
    ensures Preorder(list, a + b, depth, k)
  {
    forall i: nat | i < |a + b| ensures PreorderAt(list, a + b, depth, k, i) {
      if i < |a| { PreorderStays(list, a, b, depth, k, i); } else { PreorderShifts(list, a, b, depth, k, i - |a|); }
    }
  }

  lemma PreorderUnder(list: seq<Dept>, d: Dept, below: seq<Entry>, depth: nat)
    requires Preorder(list, below, depth + 1, Some(d.id))
    ensures Preorder(list, [Entry(d, depth)] + below, depth, Key(list, d))
  {
    var head := [Entry(d, depth)];
    var c := head + below;
    forall i: nat | 0 < i < |c| ensures c[i] == below[i - 1] && c[i].depth > depth {
      assert PreorderAt(list, below, depth + 1, Some(d.id), i - 1);
    }
    forall i: nat | i < |c| ensures PreorderAt(list, c, depth, Key(list, d), i) {
      if i > 0 {
        assert PreorderAt(list, below, depth + 1, Some(d.id), i - 1);
        if c[i].depth == depth + 1 {
          assert ParentAt(list, c, i, 0);
        } else {
          var j: nat :| ParentAt(list, below, i - 1, j);
          ParentShifts(list, head, below, i - 1, j);
        }
      }
    }
  }

  lemma {:induction false} LayoutPreorder(list: seq<Dept>, ds: seq<Dept>, k: Option<Id>, depth: nat)
    requires UniqueIds(list) && depth <= MAX_DEPTH && Siblings(list, ds, k)
    ensures Preorder(list, Layout(list, ds, depth), depth, k)
    decreases MAX_DEPTH - depth, |ds|
  {
    if ds != [] {
      if depth < MAX_DEPTH {
        KidsAreSiblings(list, Some(ds[0].id));
        LayoutPreorder(list, Kids(list, Some(ds[0].id)), Some(ds[0].id), depth + 1);
      }
      PreorderUnder(list, ds[0], Below(list, ds[0], depth), depth);
      LayoutPreorder(list, ds[1..], k, depth);
      PreorderConcat(list, [Entry(ds[0], depth)] + Below(list, ds[0], depth), Layout(list, ds[1..], depth), depth, k);
    }
  }

  // ---- siblings in list order ------------------------------------------------------------------------------

  ghost predicate Precedes(list: seq<Dept>, a: Dept, b: Dept) {
    exists i, j :: 0 <= i < j < |list| && list[i] == a && list[j] == b
  }

  /** Departments with the same key come out in the order of the list. */
  ghost predicate SiblingOrder(list: seq<Dept>, ds: seq<Dept>) {
    forall i, j :: OrderedAt(list, ds, i, j)
  }

  ghost predicate OrderedAt(list: seq<Dept>, ds: seq<Dept>, i: nat, j: nat) {
    i < j < |ds| && Key(list, ds[i]) == Key(list, ds[j]) ==> Precedes(list, ds[i], ds[j])
  }

  lemma OrderConcat(list: seq<Dept>, a: seq<Dept>, b: seq<Dept>)
    requires SiblingOrder(list, a) && SiblingOrder(list, b)
    requires forall x, y :: x in a && y in b && Key(list, x) == Key(list, y) ==> Precedes(list, x, y)
    ensures SiblingOrder(list, a + b)
  {
    var c := a + b;
    forall i: nat, j: nat ensures OrderedAt(list, c, i, j) {
      if i < j < |c| {
        if j < |a| {
          assert c[i] == a[i] && c[j] == a[j] && OrderedAt(list, a, i, j);
        } else if i >= |a| {
          assert c[i] == b[i - |a|] && c[j] == b[j - |a|] && OrderedAt(list, b, i - |a|, j - |a|);
        } else {
          assert c[i] in a && c[j] in b;
        }
      }
    }
  }

  lemma KidBefore(list: seq<Dept>, k: Option<Id>, n: nat, x: Dept)
    requires n < |list| && x in KidsIn(list, k, n)
    ensures Precedes(list, x, list[n])
  {
    KidsExact(list, k, n);
    var i :| 0 <= i < n && list[..n][i] == x;
    assert list[i] == x;
  }

  lemma {:induction false} KidsInOrder(list: seq<Dept>, k: Option<Id>, n: nat)
    requires n <= |list|
    ensures SiblingOrder(list, KidsIn(list, k, n))
  {
    if n > 0 {
      KidsInOrder(list, k, n - 1);
      if Key(list, list[n - 1]) == k {
        var earlier, last := KidsIn(list, k, n - 1), list[n - 1];
        forall x | x in earlier ensures Precedes(list, x, last) { KidBefore(list, k, n - 1, x); }
        OrderConcat(list, earlier, [last]);
      } else {
        assert KidsIn(list, k, n) == KidsIn(list, k, n - 1);
      }
    }
  }

  /** A department below one sibling and one below another never share a key, unless they are those siblings. */
  lemma KeysApart(list: seq<Dept>, up: Graph, d: Dept, a: Dept, m: nat, e: Dept, b: Dept, n: nat)
    requires Indexed(list, up) && d in list && e in list && a in list && b in list && a != b
      && Key(list, a) == Key(list, b)
    requires Ends(up, a.id) && Ends(up, b.id)
    requires Under(up, d, a, m) && Under(up, e, b, n) && m + n > 0
    ensures Key(list, d) != Key(list, e)
  {
    if Key(list, d) == Key(list, e) {
      if m > 0 && n > 0 {
        SharedParent(list, up, d, a, m, e, b, n);
      } else if m > 0 {
        SameDept(list, e, b);
        ParentLoops(list, up, d, a, m);
      } else {
        SameDept(list, d, a);
        ParentLoops(list, up, e, b, n);
      }
    }
  }

  lemma SharedParent(list: seq<Dept>, up: Graph, d: Dept, a: Dept, m: nat, e: Dept, b: Dept, n: nat)
    requires Indexed(list, up) && d in list && e in list && a in list && b in list && a != b
      && Key(list, a) == Key(list, b)
    requires Ends(up, a.id) && Ends(up, b.id)
    requires m > 0 && n > 0 && Under(up, d, a, m) && Under(up, e, b, n)
    ensures Key(list, d) != Key(list, e)
  {
    var k := Key(list, d).value;
    var i :| 0 <= i < |list| && list[i].id == k;
    SiblingsApart(list, up, list[i], a, b, m - 1, n - 1);
  }

  lemma ParentLoops(list: seq<Dept>, up: Graph, d: Dept, a: Dept, m: nat)
    requires Indexed(list, up) && d in list && a in list && m > 0 && Ends(up, a.id) && Under(up, d, a, m)
    ensures Key(list, d) != Key(list, a)
  {
    var k := Key(list, d).value;
    assert Hop(up, k, m - 1) == Some(a.id);
    EndsBelow(up, k, a.id, m - 1);
    HopAdd(up, k, m - 1, 1);
    EndsNoLoop(up, k, m);
  }

  /** Siblings whose walks up end, in the order of the list. */
  ghost predicate Ready(list: seq<Dept>, up: Graph, ds: seq<Dept>, k: Option<Id>) {
    Siblings(list, ds, k) && AllEnd(up, ds) && SiblingOrder(list, ds)
  }

  lemma KidsReady(list: seq<Dept>, up: Graph, d: Dept)
    requires Indexed(list, up) && Ends(up, d.id)
    ensures Ready(list, up, Kids(list, Some(d.id)), Some(d.id))
  {
    KidsAreSiblings(list, Some(d.id));
    KidsInOrder(list, Some(d.id), |list|);
    KidsEnd(list, up, Some(d.id));
  }

  lemma TailReady(list: seq<Dept>, up: Graph, ds: seq<Dept>, k: Option<Id>)
    requires Ready(list, up, ds, k) && ds != []
    ensures Ready(list, up, ds[1..], k)
  {
    forall i: nat, j: nat ensures OrderedAt(list, ds[1..], i, j) { assert OrderedAt(list, ds, i + 1, j + 1); }
  }

  lemma {:induction false} LayoutOrder(list: seq<Dept>, up: Graph, ds: seq<Dept>, k: Option<Id>, depth: nat)
    requires Indexed(list, up) && depth <= MAX_DEPTH && Ready(list, up, ds, k)
    ensures SiblingOrder(list, Depts(Layout(list, ds, depth)))
    decreases MAX_DEPTH - depth, 1, |ds|
  {
    if ds != [] {
      var first, rest := [Entry(ds[0], depth)] + Below(list, ds[0], depth), Layout(list, ds[1..], depth);
      HeadOrder(list, up, ds[0], depth);
      TailReady(list, up, ds, k);
      LayoutOrder(list, up, ds[1..], k, depth);
      DeptsConcat(first, rest);
      forall x, y | x in Depts(first) && y in Depts(rest) && Key(list, x) == Key(list, y) ensures Precedes(list, x, y) {
        var e := DeptsMember(first, x);
        var e' := DeptsMember(rest, y);
        OrderAcross(list, up, ds, k, depth, e, e');
      }
      OrderConcat(list, Depts(first), Depts(rest));
    }
  }

  lemma {:induction false} HeadOrder(list: seq<Dept>, up: Graph, d: Dept, depth: nat)
    requires Indexed(list, up) && depth <= MAX_DEPTH && d in list && Ends(up, d.id)
    ensures SiblingOrder(list, Depts([Entry(d, depth)] + Below(list, d, depth)))
    decreases MAX_DEPTH - depth, 0, 1
  {
    var below := Below(list, d, depth);
    BelowOrder(list, up, d, depth);
    DeptsConcat([Entry(d, depth)], below);
    assert Depts([Entry(d, depth)]) == [d];
    forall x, y | x in [d] && y in Depts(below) ensures Key(list, x) != Key(list, y) {
      var e := DeptsMember(below, y);
      BelowSound(list, up, d, depth, e);
      ParentLoops(list, up, y, d, e.depth - depth);
    }
    OrderConcat(list, [d], Depts(below));
  }

  lemma BelowIs(list: seq<Dept>, d: Dept, depth: nat)
    requires depth < MAX_DEPTH
    ensures Below(list, d, depth) == Layout(list, Kids(list, Some(d.id)), depth + 1)
  {
  }

  lemma {:induction false} BelowOrder(list: seq<Dept>, up: Graph, d: Dept, depth: nat)
    requires Indexed(list, up) && depth <= MAX_DEPTH && Ends(up, d.id)
    ensures SiblingOrder(list, Depts(Below(list, d, depth)))
    decreases MAX_DEPTH - depth, 0, 0
  {
    var below := Below(list, d, depth);
    if depth < MAX_DEPTH {
      KidsReady(list, up, d);
      BelowIs(list, d, depth);
      LayoutOrder(list, up, Kids(list, Some(d.id)), Some(d.id), depth + 1);
    } else {
      assert below == [];
      NothingOrdered(list, Depts(below));
    }
  }

  lemma NothingOrdered(list: seq<Dept>, ds: seq<Dept>)
    requires ds == []
    ensures SiblingOrder(list, ds)
  {
  }

  lemma OrderAcross(list: seq<Dept>, up: Graph, ds: seq<Dept>, k: Option<Id>, depth: nat, e: Entry, e': Entry)
    requires Indexed(list, up) && depth <= MAX_DEPTH && Ready(list, up, ds, k)
    requires ds != []
    requires e in [Entry(ds[0], depth)] + Below(list, ds[0], depth) && e' in Layout(list, ds[1..], depth)
    requires Key(list, e.d) == Key(list, e'.d)
    ensures Precedes(list, e.d, e'.d)
  {
    var x, n := UnderRest(list, up, ds, k, depth, e');
    var m := UnderHead(list, up, ds[0], depth, e);
    if m + n > 0 {
      KeysApart(list, up, e.d, ds[0], m, e'.d, x, n);
    } else {
      var q :| 0 <= q < |ds[1..]| && ds[1..][q] == x;
      assert ds[q + 1] == x && OrderedAt(list, ds, 0, q + 1);
    }
  }

  // ---- the page's list -----------------------------------------------------------------------------------

  /** d has exactly n ancestors in the list. */
  ghost predicate Ancestors(up: Graph, d: Dept, n: nat) {
    Hop(up, d.id, n).Some? && Hop(up, d.id, n + 1) == None
  }

  lemma {:induction false} CountAncestors(up: Graph, d: Dept, n: nat) returns (m: nat)
    requires Hop(up, d.id, n) == None
    ensures m < n && Ancestors(up, d, m)
  {
    if Hop(up, d.id, n - 1).Some? { m := n - 1; } else { m := CountAncestors(up, d, n - 1); }
  }

  lemma ExactFor(list: seq<Dept>, up: Graph, out: seq<Entry>)
    requires Indexed(list, up) && out == Layout(list, Kids(list, None), 0)
    ensures forall e :: e in out <==> e.d in list && e.depth <= MAX_DEPTH && Ancestors(up, e.d, e.depth)
    ensures Distinct(Depts(out)) && Preorder(list, out, 0, None) && SiblingOrder(list, Depts(out))
  {
    var roots := Kids(list, None);
    KidsAreSiblings(list, None);
    KidsInOrder(list, None, |list|);
    KidsEnd(list, up, None);
    LayoutDistinct(list, up, roots, None, 0);
    LayoutPreorder(list, roots, None, 0);
    LayoutOrder(list, up, roots, None, 0);
    forall e ensures e in out <==> e.d in list && e.depth <= MAX_DEPTH && Ancestors(up, e.d, e.depth) {
      if e in out { EntryAncestors(list, up, roots, e); }
      if e.d in list && e.depth <= MAX_DEPTH && Ancestors(up, e.d, e.depth) { EachEmitted(list, up, e.d, e.depth, 0); }
    }
  }

  // ---- the same in terms of the list ---------------------------------------------------------------------------

  /** The department names a parent that is in the list. */
  ghost predicate HasParent(list: seq<Dept>, d: Dept) {
    d.parent.Some? && d.parent.value != "" && exists e :: e in list && e.id == d.parent.value
  }

  /** up gives every department of the list its parent, if that is in the list, and nothing else. */
  ghost predicate ParentGraph(list: seq<Dept>, up: Graph) {
    && UniqueIds(list) && (forall id :: id in up ==> exists d :: d in list && d.id == id)
    && (forall d :: d in list ==> d.id in up)
    && (forall d :: d in list && HasParent(list, d) ==> up[d.id] == d.parent)
    && (forall d :: d in list && !HasParent(list, d) ==> up[d.id] == None)
  }

  lemma KeyIsParent(list: seq<Dept>, d: Dept)
    ensures Key(list, d) == if HasParent(list, d) then d.parent else None
  {
    if d.parent.Some? {
      if i :| 0 <= i < |list| && list[i].id == d.parent.value { assert list[i] in list; }
      if e :| e in list && e.id == d.parent.value {
        var i :| 0 <= i < |list| && list[i] == e;
        assert list[i].id == d.parent.value;
      }
    }
  }

  lemma ParentGraphIndexed(list: seq<Dept>, up: Graph)
    ensures ParentGraph(list, up) <==> Indexed(list, up)
  {
    forall d ensures Key(list, d) == if HasParent(list, d) then d.parent else None { KeyIsParent(list, d); }
    forall id ensures Listed(list, id) <==> exists d :: d in list && d.id == id {
      if i :| 0 <= i < |list| && list[i].id == id { assert list[i] in list; }
      if d :| d in list && d.id == id { var i :| 0 <= i < |list| && list[i] == d; assert list[i].id == id; }
    }
  }

  /** Entry j is the parent of entry i, one less deep, and everything between them is deeper than it. */
  ghost predicate Parented(up: Graph, out: seq<Entry>, i: nat, j: nat)
    requires j < i < |out| && out[i].d.id in up
  {
    && out[j].depth + 1 == out[i].depth && up[out[i].d.id] == Some(out[j].d.id)
    && forall m :: j < m < i ==> out[m].depth > out[j].depth
  }

  /** A root stands at depth 0; any other entry stands below its parent. */
  ghost predicate DepthFirst(up: Graph, out: seq<Entry>) {
    forall i: nat :: i < |out| ==> DepthFirstAt(up, out, i)
  }

  ghost predicate DepthFirstAt(up: Graph, out: seq<Entry>, i: nat)
    requires i < |out|
  {
    && out[i].d.id in up
    && if up[out[i].d.id] == None then out[i].depth == 0 else exists j: nat :: j < i && Parented(up, out, i, j)
  }

  /** Departments with one parent, and the roots, come in the order of the list. */
  ghost predicate ListOrder(list: seq<Dept>, up: Graph, ds: seq<Dept>) {
    forall i: nat, j: nat :: ListOrderAt(list, up, ds, i, j)
  }

  ghost predicate ListOrderAt(list: seq<Dept>, up: Graph, ds: seq<Dept>, i: nat, j: nat) {
    i < j < |ds| && ds[i].id in up && ds[j].id in up && up[ds[i].id] == up[ds[j].id] ==> Precedes(list, ds[i], ds[j])
  }

  lemma DepthFirstOut(list: seq<Dept>, up: Graph, out: seq<Entry>)
    requires Indexed(list, up) && Preorder(list, out, 0, None) && forall e :: e in out ==> e.d in list
    ensures DepthFirst(up, out)
  {
    forall i: nat | i < |out| ensures DepthFirstAt(up, out, i) {
      assert out[i] in out && PreorderAt(list, out, 0, None, i);
      if out[i].depth > 0 {
        var j: nat :| ParentAt(list, out, i, j);
        assert Parented(up, out, i, j);
      }
    }
  }

  lemma ListOrderOut(list: seq<Dept>, up: Graph, ds: seq<Dept>)
    requires Indexed(list, up) && SiblingOrder(list, ds) && forall d :: d in ds ==> d in list
    ensures ListOrder(list, up, ds)
  {
    forall i: nat, j: nat ensures ListOrderAt(list, up, ds, i, j) {
      if i < j < |ds| {
        assert ds[i] in ds && ds[j] in ds;
        assert OrderedAt(list, ds, i, j);
      }
    }
  }

  /** Whatever the list, as long as its ids differ: flatten emits exactly the departments with at most 32 ancestors,
      each once, at a depth equal to the number of its ancestors, depth first, siblings in the order of the list. */
  lemma FlattenExact(list: seq<Dept>, out: seq<Entry>) returns (up: Graph)
    requires UniqueIds(list) && out == Layout(list, Kids(list, None), 0)
    ensures ParentGraph(list, up)
    ensures forall e :: e in out <==> e.d in list && e.depth <= 32 && Ancestors(up, e.d, e.depth)
    ensures Distinct(Depts(out)) && DepthFirst(up, out) && ListOrder(list, up, Depts(out))
  {
    up := GraphOf(list);
    ParentGraphIndexed(list, up);
    ExactFor(list, up, out);
    DepthFirstOut(list, up, out);
    forall d | d in Depts(out) ensures d in list { var e := DeptsMember(out, d); }
    ListOrderOut(list, up, Depts(out));
  }

  /** Nothing is left out exactly when no department is above itself and none has more than 32 ancestors. */
  lemma FlattenComplete(list: seq<Dept>, up: Graph, out: seq<Entry>)
    requires ParentGraph(list, up) && out == Layout(list, Kids(list, None), 0)
    ensures (forall d :: d in Depts(out) <==> d in list) <==>
      Acyclic(up) && forall d :: d in list ==> Hop(up, d.id, 33) == None
  {
    ParentGraphIndexed(list, up);
    ExactFor(list, up, out);
    forall d ensures d in Depts(out) <==> d in list && Hop(up, d.id, 33) == None {
      if d in Depts(out) {
        var e := DeptsMember(out, d);
        HopAdd(up, d.id, e.depth + 1, 32 - e.depth);
      }
      if d in list && Hop(up, d.id, 33) == None {
        var n := CountAncestors(up, d, 33);
        EntryDept(out, Entry(d, n));
      }
    }
    if forall d :: d in list ==> Hop(up, d.id, 33) == None {
      forall id, n: nat | id in up && n > 0 ensures Hop(up, id, n) != Some(id) {
        var i :| 0 <= i < |list| && list[i].id == id;
        assert list[i] in list;
        EndsNoLoop(up, id, n);
      }
    }
  }

  lemma EntryAncestors(list: seq<Dept>, up: Graph, roots: seq<Dept>, e: Entry)
    requires Indexed(list, up) && Siblings(list, roots, None) && e in Layout(list, roots, 0)
    ensures e.d in list && e.depth <= MAX_DEPTH && Ancestors(up, e.d, e.depth)
  {
    var x := LayoutSound(list, up, roots, 0, e);
    HopAdd(up, e.d.id, e.depth, 1);
  }

  lemma EachEmitted(list: seq<Dept>, up: Graph, d: Dept, n: nat, top: nat)
    requires Indexed(list, up) && d in list && top + n <= MAX_DEPTH && Ancestors(up, d, n)
    ensures Entry(d, top + n) in Layout(list, Kids(list, None), top)
  {
    var x := WhoIs(list, up, d, n);
    TopIsRoot(list, up, d, n, x);
    InKids(list, None, x);
    KidsAreSiblings(list, None);
    LayoutComplete(list, up, Kids(list, None), top, d, x, n);
  }

  lemma TopIsRoot(list: seq<Dept>, up: Graph, d: Dept, n: nat, x: Dept)
    requires Indexed(list, up) && x in list && Ancestors(up, d, n) && Under(up, d, x, n)
    ensures Key(list, x) == None
  {
    HopAdd(up, d.id, n, 1);
    assert Hop(up, x.id, 1) == None;
  }

  lemma {:induction false} WhoIs(list: seq<Dept>, up: Graph, d: Dept, n: nat) returns (x: Dept)
    requires Indexed(list, up) && d in list && Hop(up, d.id, n).Some?
    ensures x in list && Under(up, d, x, n)
  {
    if n == 0 {
      x := d;
    } else {
      HopAdd(up, d.id, n - 1, 1);
      var y := WhoIs(list, up, d, n - 1);
      var i :| 0 <= i < |list| && list[i].id == Key(list, y).value;
      x := list[i];
    }
  }

  lemma {:induction false} EntryDept(es: seq<Entry>, e: Entry)
    requires e in es
    ensures e.d in Depts(es)
  {
    if es[0] != e { EntryDept(es[1..], e); }
  }
}
