/** Permission grants and their order: a code held for all rows is wider than one held for own rows. */
module Grants {

  type Perm = string
  datatype Scope = Own | All
  type Grants = map<Perm, Scope>

  /** grantCovers. */
  predicate Covers(mine: Grants, p: Perm, s: Scope) {
    p in mine && (s == All ==> mine[p] == All)
  }

  ghost predicate Leq(a: Grants, b: Grants) {
    forall p, s :: Covers(a, p, s) ==> Covers(b, p, s)
  }

  /** The wider of two sets of grants, code by code. */
  function Join(a: Grants, b: Grants): Grants {
    map p | p in a.Keys + b.Keys :: if Covers(a, p, All) || Covers(b, p, All) then All else Own
  }

  /** The join covers exactly what one of the two covers; in particular it is their least upper bound. */
  lemma JoinCovers(a: Grants, b: Grants, p: Perm, s: Scope)
    ensures Covers(Join(a, b), p, s) <==> Covers(a, p, s) || Covers(b, p, s)
  {
  }

  lemma Antisymmetry(a: Grants, b: Grants)
    requires Leq(a, b) && Leq(b, a)
    ensures a == b
  {
    forall p ensures (p in a <==> p in b) && (p in a ==> a[p] == b[p]) {
      assert Covers(a, p, Own) <==> Covers(b, p, Own);
      assert Covers(a, p, All) <==> Covers(b, p, All);
    }
  }

  datatype Row = Row(perm: Perm, scope: Scope)

  /** The rows, taken together, cover this. */
  predicate RowsCover(rows: seq<Row>, p: Perm, s: Scope) {
    exists i :: 0 <= i < |rows| && rows[i].perm == p && (s == All ==> rows[i].scope == All)
  }

  /** The fold over permission rows: a row is skipped once its code is held for all. What is left
      covers exactly what the rows cover, so the order of the rows does not matter. */
  method FoldRows(rows: seq<Row>) returns (grants: Grants)
    ensures forall p, s :: Covers(grants, p, s) <==> RowsCover(rows, p, s)
  {
    grants := map[];
    for i := 0 to |rows|
      invariant forall p, s :: Covers(grants, p, s) <==> RowsCover(rows[..i], p, s)
    {
      ghost var before := grants;
      var row := rows[i];
      if !(row.perm in grants && grants[row.perm] == All) {
        grants := grants[row.perm := row.scope];
      }
      forall p, s ensures Covers(grants, p, s) <==> RowsCover(rows[..i + 1], p, s) {
        RowsCoverNext(rows, i, p, s);
        assert Covers(before, p, s) <==> RowsCover(rows[..i], p, s);
      }
    }
    assert rows[..|rows|] == rows;
  }

  lemma RowsCoverNext(rows: seq<Row>, i: nat, p: Perm, s: Scope)
    requires i < |rows|
    ensures RowsCover(rows[..i + 1], p, s) <==>
      RowsCover(rows[..i], p, s) || (rows[i].perm == p && (s == All ==> rows[i].scope == All))
  {
    var a, b := rows[..i], rows[..i + 1];
    if RowsCover(a, p, s) {
      var k :| 0 <= k < |a| && a[k].perm == p && (s == All ==> a[k].scope == All);
      assert b[k] == a[k];
    }
    if rows[i].perm == p && (s == All ==> rows[i].scope == All) { assert b[i] == rows[i]; }
    if RowsCover(b, p, s) {
      var k :| 0 <= k < |b| && b[k].perm == p && (s == All ==> b[k].scope == All);
      if k < i { assert a[k] == b[k]; }
    }
  }
}
