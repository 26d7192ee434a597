/** OAuth scope strings: strings.Fields, the space-delimited word test, and the two scope checks. */
module Scopes {
  import opened Common

  /** unicode.IsSpace. */
  predicate IsSpace(c: char) {
    '\t' <= c <= '\r' || c == ' ' || c == '\U{0085}' || c == '\U{00A0}' || c == '\U{1680}'
    || '\U{2000}' <= c <= '\U{200A}' || c == '\U{2028}' || c == '\U{2029}' || c == '\U{202F}'
    || c == '\U{205F}' || c == '\U{3000}'
  }

  function WordEnd(s: string, i: nat): (j: nat)
    requires i <= |s|
    ensures i <= j <= |s|
    ensures forall k :: i <= k < j ==> !IsSpace(s[k])
    ensures j < |s| ==> IsSpace(s[j])
    decreases |s| - i
  {
    if i == |s| || IsSpace(s[i]) then i else WordEnd(s, i + 1)
  }

  function FieldsFrom(s: string, i: nat): seq<string>
    requires i <= |s|
    decreases |s| - i
  {
    if i == |s| then []
    else if IsSpace(s[i]) then FieldsFrom(s, i + 1)
    else var j := WordEnd(s, i); [s[i..j]] + FieldsFrom(s, j)
  }

  /** strings.Fields. */
  function Fields(s: string): seq<string> {
    FieldsFrom(s, 0)
  }

  function Words(s: string): set<string> {
    set w | w in Fields(s)
  }

  /** The token endpoint's word test: strings.Contains(" "+scope+" ", " "+w+" "). */
  predicate HasWord(scope: string, w: string) {
    var padded, needle := " " + scope + " ", " " + w + " ";
    exists k: nat :: k <= |padded| && OccursAt(padded, needle, k)
  }

  /** A word delimited by s's ends or spaces, starting at or after i, is one of the fields from i. */
  lemma {:induction false} DelimitedIsField(s: string, i: nat, k: nat, w: string)
    requires i <= k && k + |w| <= |s| && w != "" && s[k..k + |w|] == w
    requires forall c :: c in w ==> !IsSpace(c)
    requires i < k ==> IsSpace(s[k - 1])
    requires k + |w| < |s| ==> IsSpace(s[k + |w|])
    ensures w in FieldsFrom(s, i)
    decreases |s| - i
  {
    assert forall x :: k <= x < k + |w| ==> s[x] == s[k..k + |w|][x - k];
    if i == k {
      var j := WordEnd(s, i);
      assert s[i] == w[0];
      assert j == k + |w|;
    } else if IsSpace(s[i]) {
      DelimitedIsField(s, i + 1, k, w);
    } else {
      var j := WordEnd(s, i);
      assert j <= k - 1;
      DelimitedIsField(s, j, k, w);
    }
  }

  /** Whatever the word test finds is also a field, so it is subject to the subset check. */
  lemma HasWordIsField(scope: string, w: string)
    requires w != "" && forall c :: c in w ==> !IsSpace(c)
    requires HasWord(scope, w)
    ensures w in Words(scope)
  {
    var padded, needle := " " + scope + " ", " " + w + " ";
    var k: nat :| k <= |padded| && OccursAt(padded, needle, k);
    forall x | 0 <= x < |w| ensures scope[k + x] == w[x] {
      assert needle[x + 1] == padded[k + (x + 1)];
    }
    assert needle[0] == padded[k + (0)];
    assert needle[|w| + 1] == padded[k + (|w| + 1)];
    assert scope[k..k + |w|] == w;
    DelimitedIsField(scope, 0, k, w);
  }

  predicate Edge(c: char, plain: bool) {
    if plain then c == ' ' else IsSpace(c)
  }

  /** w stands at k, between ends of s or white space; plain spaces if so asked. */
  predicate Between(s: string, w: string, k: nat, plain: bool) {
    && k + |w| <= |s| && s[k..k + |w|] == w
    && (k > 0 ==> Edge(s[k - 1], plain)) && (k + |w| < |s| ==> Edge(s[k + |w|], plain))
  }

  lemma {:induction false} FieldIsDelimited(s: string, i: nat, w: string) returns (k: nat)
    requires i <= |s| && w in FieldsFrom(s, i)
    requires i == 0 || IsSpace(s[i - 1]) || i == |s| || IsSpace(s[i])
    ensures w != "" && (forall c :: c in w ==> !IsSpace(c)) && Between(s, w, k, false)
    decreases |s| - i
  {
    if IsSpace(s[i]) {
      k := FieldIsDelimited(s, i + 1, w);
    } else {
      var j := WordEnd(s, i);
      if w == s[i..j] { k := i; } else { k := FieldIsDelimited(s, j, w); }
    }
  }

  /** The words of a text are exactly its longest stretches without white space. */
  lemma WordsExact(s: string, w: string)
    ensures w in Words(s) <==>
      w != "" && (forall c :: c in w ==> !IsSpace(c)) && exists k: nat :: Between(s, w, k, false)
  {
    if w in Words(s) {
      var k := FieldIsDelimited(s, 0, w);
    }
    if w != "" && (forall c :: c in w ==> !IsSpace(c)) && exists k: nat :: Between(s, w, k, false) {
      var k: nat :| Between(s, w, k, false);
      DelimitedIsField(s, 0, k, w);
    }
  }

  /** The word test holds exactly when the word stands in the text between ends or plain spaces. */
  lemma HasWordExact(scope: string, w: string)
    ensures HasWord(scope, w) <==> exists k: nat :: Between(scope, w, k, true)
  {
    var padded, needle := " " + scope + " ", " " + w + " ";
    if k: nat :| k <= |padded| && OccursAt(padded, needle, k) {
      PaddedWord(scope, w, k);
    }
    if k: nat :| Between(scope, w, k, true) {
      forall x | 0 <= x < |needle| ensures needle[x] == padded[k + x] {
        if 0 < x <= |w| { assert needle[x] == w[x - 1] == scope[k..k + |w|][x - 1]; }
      }
      assert OccursAt(padded, needle, k);
    }
  }

  lemma PaddedWord(scope: string, w: string, k: nat)
    requires OccursAt(" " + scope + " ", " " + w + " ", k)
    ensures Between(scope, w, k, true)
  {
    var padded, needle := " " + scope + " ", " " + w + " ";
    forall x | 0 <= x < |w| ensures scope[k + x] == w[x] { assert needle[x + 1] == padded[k + (x + 1)]; }
    assert needle[0] == padded[k + 0] && needle[|w| + 1] == padded[k + (|w| + 1)];
    assert scope[k..k + |w|] == w;
  }

  /** scopeSubset: every word wanted is a word held. */
  method ScopeSubset(want: string, have: string) returns (ok: bool)
    ensures ok <==> Words(want) <= Words(have)
  {
    var held: map<string, bool> := map[];
    var fields := Fields(have);
    for i := 0 to |fields|
      invariant forall w :: w in held <==> w in fields[..i]
    {
      held := held[fields[i] := true];
    }
    assert fields[..|fields|] == fields;
    var wanted := Fields(want);
    for i := 0 to |wanted|
      invariant forall w :: w in wanted[..i] ==> w in held
    {
      if wanted[i] !in held {
        assert wanted[i] in Words(want);
        return false;
      }
    }
    assert wanted[..|wanted|] == wanted;
    return true;
  }

  /** allowsScope: offline_access needs no registration with the client, every other word does. */
  method AllowsScope(clientScopes: string, scope: string) returns (ok: bool)
    ensures ok <==> Words(scope) - {"offline_access"} <= Words(clientScopes)
  {
    var allowed: map<string, bool> := map[];
    var fields := Fields(clientScopes);
    for i := 0 to |fields|
      invariant forall w :: w in allowed <==> w in fields[..i]
    {
      allowed := allowed[fields[i] := true];
    }
    assert fields[..|fields|] == fields;
    var wanted := Fields(scope);
    for i := 0 to |wanted|
      invariant forall w :: w in wanted[..i] ==> w in allowed || w == "offline_access"
    {
      if wanted[i] !in allowed && wanted[i] != "offline_access" {
        assert wanted[i] in Words(scope) - {"offline_access"};
        return false;
      }
    }
    assert wanted[..|wanted|] == wanted;
    return true;
  }
}
