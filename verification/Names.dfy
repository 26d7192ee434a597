/** The name shapes that regular expressions check, and what a name prefix separates. */
module Names {
  import opened Common

  predicate LowerChar(c: char) { 'a' <= c <= 'z' }
  predicate DigitChar(c: char) { '0' <= c <= '9' }
  predicate WordChar(c: char) { LowerChar(c) || DigitChar(c) || c == '_' }

  /** One segment: a lower-case letter, then lower-case letters, digits and underscores. */
  predicate Segment(s: string) {
    s != "" && LowerChar(s[0]) && forall i :: 0 <= i < |s| ==> WordChar(s[i])
  }

  /** Two or more segments joined by dots. */
  predicate Dotted(s: string)
    decreases |s|
  {
    var i := IndexFrom(s, '.', 0);
    i < |s| && Segment(s[..i]) && (Segment(s[i + 1..]) || Dotted(s[i + 1..]))
  }

  /** The short id of a module. */
  predicate ShortId(s: string) {
    Segment(s) && 2 <= |s| <= 32
  }

  /** The id Register accepts. */
  predicate ModuleId(s: string) {
    3 <= |s| <= 128 && LowerChar(s[0]) && forall i :: 0 <= i < |s| ==> WordChar(s[i]) || s[i] == '.'
  }

  function SkipDigits(s: string, i: nat): (j: nat)
    requires i <= |s|
    ensures i <= j <= |s|
    decreases |s| - i
  {
    if i < |s| && DigitChar(s[i]) then SkipDigits(s, i + 1) else i
  }

  predicate SuffixChar(c: char) {
    DigitChar(c) || LowerChar(c) || 'A' <= c <= 'Z' || c == '.' || c == '-'
  }

  /** Three numbers joined by dots, and an optional suffix after a minus or plus. */
  predicate SemVer(s: string) {
    var a := SkipDigits(s, 0);
    0 < a < |s| && s[a] == '.' &&
    var b := SkipDigits(s, a + 1);
    a + 1 < b < |s| && s[b] == '.' &&
    var c := SkipDigits(s, b + 1);
    b + 1 < c && (c == |s|
      || ((s[c] == '-' || s[c] == '+') && c + 1 < |s| && forall i :: c < i < |s| ==> SuffixChar(s[i])))
  }

  /** A name without dots is recovered from any code it prefixes; so two such names never share a code. */
  lemma PrefixSeparates(a: string, b: string, code: string)
    requires '.' !in a && '.' !in b
    requires HasPrefix(code, a + ".") && HasPrefix(code, b + ".")
    ensures a == b
  {
    FirstDot(a, code);
    FirstDot(b, code);
    assert code[..|a|] == (a + ".")[..|a|] == a;
    assert code[..|b|] == (b + ".")[..|b|] == b;
  }

  lemma FirstDot(a: string, code: string)
    requires '.' !in a && HasPrefix(code, a + ".")
    ensures IndexFrom(code, '.', 0) == |a|
  {
    assert code[|a|] == (a + ".")[|a|] == '.';
    forall k | 0 <= k < |a| ensures code[k] != '.' {
      assert code[k] == (a + ".")[k] == a[k] && a[k] in a;
    }
  }

  // ---- the shapes, character by character -----------------------------------------------------------------------

  predicate NameChar(c: char) {
    'a' <= c <= 'z' || '0' <= c <= '9' || c == '_'
  }

  /** Names of lower-case letters, digits and underscores, each starting with a letter, joined by one dot or more. */
  ghost predicate DottedText(s: string) {
    && s != "" && 'a' <= s[0] <= 'z' && (exists i :: 0 <= i < |s| && s[i] == '.')
    && forall i :: 0 <= i < |s| ==> DottedAt(s, i)
  }

  predicate DottedAt(s: string, i: nat)
    requires i < |s|
  {
    NameChar(s[i]) || (s[i] == '.' && i + 1 < |s| && 'a' <= s[i + 1] <= 'z')
  }

  /** A lower-case letter, then 1 to 31 lower-case letters, digits and underscores. */
  predicate ShortText(s: string) {
    2 <= |s| <= 32 && 'a' <= s[0] <= 'z' && forall i :: 0 <= i < |s| ==> NameChar(s[i])
  }

  lemma ShortExact(s: string)
    ensures ShortId(s) <==> ShortText(s)
  {
    forall c ensures WordChar(c) <==> NameChar(c) {}
  }

  lemma {:induction false} DottedExact(s: string)
    ensures Dotted(s) <==> DottedText(s)
    decreases |s|
  {
    forall c ensures WordChar(c) <==> NameChar(c) {}
    var i := IndexFrom(s, '.', 0);
    if i < |s| {
      var a, b := s[..i], s[i + 1..];
      DottedExact(b);
      if Dotted(s) { DottedJoins(s, i); }
      if DottedText(s) { DottedSplits(s, i); }
    }
  }

  lemma DottedJoins(s: string, i: nat)
    requires i < |s| && s[i] == '.' && Segment(s[..i]) && (Segment(s[i + 1..]) || DottedText(s[i + 1..]))
    ensures DottedText(s)
  {
    var a, b := s[..i], s[i + 1..];
    forall k | 0 <= k < |s| ensures DottedAt(s, k) {
      if k < i {
        assert s[k] == a[k];
      } else if k > i {
        assert s[k] == b[k - i - 1];
        if DottedText(b) { assert DottedAt(b, k - i - 1); }
      } else {
        assert s[k + 1] == b[0];
      }
    }
    assert s[0] == a[0];
  }

  lemma DottedSplits(s: string, i: nat)
    requires DottedText(s) && i < |s| && s[i] == '.' && forall k :: 0 <= k < i ==> s[k] != '.'
    ensures Segment(s[..i]) && (Segment(s[i + 1..]) || DottedText(s[i + 1..]))
  {
    var a, b := s[..i], s[i + 1..];
    assert DottedAt(s, i) && DottedAt(s, 0);
    forall k | 0 <= k < |a| ensures WordChar(a[k]) { assert DottedAt(s, k); }
    forall k | 0 <= k < |b| ensures DottedAt(b, k) { assert DottedAt(s, i + 1 + k); }
    if forall k :: 0 <= k < |b| ==> b[k] != '.' {
      forall k | 0 <= k < |b| ensures WordChar(b[k]) { assert DottedAt(b, k); }
    }
  }

  predicate Digits(s: string) {
    s != "" && forall i :: 0 <= i < |s| ==> '0' <= s[i] <= '9'
  }

  /** Nothing, or a minus or plus followed by letters, digits, dots and minuses. */
  predicate Suffix(s: string) {
    s == "" || ((s[0] == '-' || s[0] == '+') && |s| > 1
                && forall i :: 1 <= i < |s| ==>
                     'a' <= s[i] <= 'z' || 'A' <= s[i] <= 'Z' || '0' <= s[i] <= '9' || s[i] == '.' || s[i] == '-')
  }

  /** Three numbers joined by dots, and a suffix. */
  ghost predicate Version(s: string) {
    exists x, y, z, t :: VersionOf(s, x, y, z, t)
  }

  predicate VersionOf(s: string, x: string, y: string, z: string, t: string) {
    Digits(x) && Digits(y) && Digits(z) && Suffix(t) && s == x + "." + y + "." + z + t
  }

  lemma {:induction false} SkipsDigits(s: string, i: nat, j: nat)
    requires i <= j <= |s| && (forall k :: i <= k < j ==> '0' <= s[k] <= '9') && (j < |s| ==> !('0' <= s[j] <= '9'))
    ensures SkipDigits(s, i) == j
    decreases j - i
  {
    if i < j { SkipsDigits(s, i + 1, j); }
  }

  lemma {:induction false} SkippedDigits(s: string, i: nat)
    requires i <= |s|
    ensures forall k :: i <= k < SkipDigits(s, i) ==> '0' <= s[k] <= '9'
    decreases |s| - i
  {
    if i < |s| && DigitChar(s[i]) { SkippedDigits(s, i + 1); }
  }

  lemma SemVerExact(s: string)
    ensures SemVer(s) <==> Version(s)
  {
    if SemVer(s) { SemVerParts(s); }
    if x, y, z, t :| VersionOf(s, x, y, z, t) { VersionParts(s, x, y, z, t); }
  }

  lemma SemVerParts(s: string)
    requires SemVer(s)
    ensures Version(s)
  {
    var a := SkipDigits(s, 0);
    var b := SkipDigits(s, a + 1);
    var c := SkipDigits(s, b + 1);
    SkippedDigits(s, 0);
    SkippedDigits(s, a + 1);
    SkippedDigits(s, b + 1);
    CutDigits(s, 0, a);
    CutDigits(s, a + 1, b);
    CutDigits(s, b + 1, c);
    JoinedParts(s, a, b, c);
    assert Suffix(s[c..]);
    assert VersionOf(s, s[0..a], s[a + 1..b], s[b + 1..c], s[c..]);
  }

  lemma CutDigits(s: string, i: nat, j: nat)
    requires i < j <= |s| && forall k :: i <= k < j ==> '0' <= s[k] <= '9'
    ensures Digits(s[i..j])
  {
  }

  lemma JoinedParts(s: string, a: nat, b: nat, c: nat)
    requires a < b < c <= |s| && s[a] == '.' && s[b] == '.'
    ensures s == s[0..a] + "." + s[a + 1..b] + "." + s[b + 1..c] + s[c..]
  {
    assert s[..b] == s[..a] + "." + s[a + 1..b];
    assert s[..c] == s[..b] + "." + s[b + 1..c];
    assert s == s[..c] + s[c..];
  }

  lemma VersionParts(s: string, x: string, y: string, z: string, t: string)
    requires VersionOf(s, x, y, z, t)
    ensures SemVer(s)
  {
    var a := |x|;
    var b := a + 1 + |y|;
    var c := b + 1 + |z|;
    PartChars(s, x, y, z, t);
    SkipsDigits(s, 0, a);
    SkipsDigits(s, a + 1, b);
    SkipsDigits(s, b + 1, c);
  }

  lemma PartChars(s: string, x: string, y: string, z: string, t: string)
    requires s == x + "." + y + "." + z + t
    ensures var a := |x|; var b := a + 1 + |y|; var c := b + 1 + |z|;
      && |s| == c + |t| && s[a] == '.' && s[b] == '.'
      && (forall k :: 0 <= k < a ==> s[k] == x[k]) && (forall k :: a < k < b ==> s[k] == y[k - a - 1])
      && (forall k :: b < k < c ==> s[k] == z[k - b - 1]) && (forall k :: c <= k < |s| ==> s[k] == t[k - c])
  {
  }
}
