/** Strings in the order that sorting uses. */
module Ordering {
  import opened Common

  predicate Leq(a: string, b: string) {
    a == "" || (b != "" && (a[0] < b[0] || (a[0] == b[0] && Leq(a[1..], b[1..]))))
  }

  lemma {:induction false} LeqTotal(a: string, b: string)
    ensures Leq(a, b) || Leq(b, a)
    ensures Leq(a, b) && Leq(b, a) ==> a == b
  {
    if a != "" && b != "" && a[0] == b[0] {
      LeqTotal(a[1..], b[1..]);
      assert a == [a[0]] + a[1..] && b == [b[0]] + b[1..];
    }
  }

  lemma {:induction false} LeqTrans(a: string, b: string, c: string)
    requires Leq(a, b) && Leq(b, c)
    ensures Leq(a, c)
  {
    if a != "" && a[0] == b[0] == c[0] {
      LeqTrans(a[1..], b[1..], c[1..]);
    }
  }

  ghost predicate Least(s: set<string>, x: string) {
    x in s && forall y :: y in s ==> Leq(x, y)
  }

  lemma {:induction false} LeastExists(s: set<string>)
    requires s != {}
    ensures exists x :: Least(s, x)
  {
    var y :| y in s;
    LeqTotal(y, y);
    if s == {y} {
      assert Least(s, y);
    } else {
      LeastExists(s - {y});
      var z :| Least(s - {y}, z);
      LeqTotal(y, z);
      var x := if Leq(y, z) then y else z;
      forall w | w in s ensures Leq(x, w) {
        if w != y && x == y { LeqTrans(y, z, w); }
      }
      assert Least(s, x);
    }
  }

  lemma LeastUnique(s: set<string>, x: string, y: string)
    requires Least(s, x) && Least(s, y)
    ensures x == y
  {
    LeqTotal(x, y);
  }

  /** The strings of a set in order. */
  ghost function Sorted(s: set<string>): seq<string> {
    if s == {} then []
    else
      LeastExists(s);
      var x :| Least(s, x);
      [x] + Sorted(s - {x})
  }

  lemma {:induction false} SortedHas(s: set<string>)
    ensures Distinct(Sorted(s)) && forall x :: x in Sorted(s) <==> x in s
  {
    if s != {} {
      var x := Sorted(s)[0];
      SortedHas(s - {x});
    }
  }

  ghost predicate Increasing(r: seq<string>) {
    forall i, j :: 0 <= i < j < |r| ==> Leq(r[i], r[j])
  }

  /** The strings of the set, each once, in increasing order. */
  ghost predicate InOrder(r: seq<string>, s: set<string>) {
    Increasing(r) && Distinct(r) && forall x :: x in r <==> x in s
  }

  lemma {:induction false} SortedInOrder(s: set<string>)
    ensures InOrder(Sorted(s), s)
  {
    SortedHas(s);
    if s != {} {
      var x, rest := Sorted(s)[0], Sorted(s)[1..];
      SortedInOrder(s - {x});
      forall i, j | 0 <= i < j < |Sorted(s)| ensures Leq(Sorted(s)[i], Sorted(s)[j]) {
        assert Sorted(s)[j] == rest[j - 1] && rest[j - 1] in s - {x};
        if i > 0 { assert Sorted(s)[i] == rest[i - 1]; }
      }
    }
  }

  /** sort.Strings over the keys of a map, which come in any order. */
  method Sort(s: set<string>) returns (r: seq<string>)
    ensures InOrder(r, s) && r == Sorted(s)
  {
    r := Selected(s);
    SortedInOrder(s);
  }

  method Selected(s: set<string>) returns (r: seq<string>)
    ensures r == Sorted(s)
  {
    r := [];
    var todo := s;
    while todo != {}
      invariant r + Sorted(todo) == Sorted(s)
    {
      var x := TakeLeast(todo);
      ghost var y := Sorted(todo)[0];
      LeastUnique(todo, x, y);
      assert Sorted(todo) == [x] + Sorted(todo - {x});
      r := r + [x];
      todo := todo - {x};
    }
  }

  method TakeLeast(s: set<string>) returns (x: string)
    requires s != {}
    ensures Least(s, x)
  {
    x :| x in s;
    LeqTotal(x, x);
    var rest := s - {x};
    while rest != {}
      invariant x in s && rest <= s && forall y :: y in s - rest ==> Leq(x, y)
    {
      var y :| y in rest;
      LeqTotal(x, y);
      ghost var before := x;
      if Leq(y, x) { x := y; }
      forall w | w in s - (rest - {y}) ensures Leq(x, w) {
        if w == y {
          LeqTotal(y, y);
        } else if x == y {
          LeqTrans(y, before, w);
        }
      }
      rest := rest - {y};
    }
  }
}
