/** Value types shared by all modules, and string helpers named after the Go functions they follow. */
module Common {

  datatype Option<+T> = None | Some(value: T)

  /** strings.HasPrefix. */
  predicate HasPrefix(s: string, prefix: string) {
    |prefix| <= |s| && s[..|prefix|] == prefix
  }

  /** strings.HasSuffix. */
  predicate HasSuffix(s: string, suffix: string) {
    |suffix| <= |s| && s[|s| - |suffix|..] == suffix
  }

  /** The first position of c in s at or after i, or |s|. */
  function IndexFrom(s: string, c: char, i: nat): (j: nat)
    requires i <= |s|
    ensures i <= j <= |s|
    ensures j < |s| ==> s[j] == c
    ensures forall k :: i <= k < j ==> s[k] != c
    decreases |s| - i
  {
    if i == |s| || s[i] == c then i else IndexFrom(s, c, i + 1)
  }

  lemma FirstColon(a: string, rest: string)
    requires ':' !in a
    ensures IndexFrom(a + ":" + rest, ':', 0) == |a|
  {
    var s := a + ":" + rest;
    assert s[|a|] == ':';
    forall k | 0 <= k < |a| ensures s[k] != ':' { assert s[k] == a[k] && a[k] in a; }
  }

  /** t occurs in s at position k. */
  predicate OccursAt(s: string, t: string, k: nat) {
    k + |t| <= |s| && forall x :: 0 <= x < |t| ==> t[x] == s[k + x]
  }

  ghost predicate Distinct<T>(s: seq<T>) {
    forall i, j :: 0 <= i < j < |s| ==> s[i] != s[j]
  }

  lemma DistinctSnoc<T>(s: seq<T>, x: T)
    requires Distinct(s) && x !in s
    ensures Distinct(s + [x])
  {
  }

  /** A set whose members are all equal has at most one of them. */
  lemma AtMostOne<T>(s: set<T>)
    requires forall x, y :: x in s && y in s ==> x == y
    ensures |s| <= 1
  {
    if s != {} {
      var x :| x in s;
      assert s == {x};
    }
  }
}
