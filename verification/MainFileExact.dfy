/** The text of main.go in the words of the Go language and of the regular expression that reads it. */
module MainFileExact {
  import opened Common
  import opened Names
  import opened MarkerText
  import opened MainFile
  import opened MainFileLaws

  // ---- string literals --------------------------------------------------------------------------------------------

  function DigitValue(c: char): Option<nat> {
    if '0' <= c <= '9' then Some(c as nat - '0' as nat)
    else if 'a' <= c <= 'f' then Some(c as nat - 'a' as nat + 10)
    else if 'A' <= c <= 'F' then Some(c as nat - 'A' as nat + 10)
    else None
  }

  function HexValue(s: string): Option<nat> {
    if s == "" then Some(0)
    else
      var high, low := HexValue(s[..|s| - 1]), DigitValue(s[|s| - 1]);
      if high.None? || low.None? then None else Some(16 * high.value + low.value)
  }

  function CharOf(v: Option<nat>): Option<char> {
    if v.None? || 0xD800 <= v.value < 0xE000 || v.value >= 0x11_0000 then None else Some(v.value as char)
  }

  /** A letter after a backslash that stands for one character. */
  function Simple(c: char): Option<char> {
    match c
    case 'a' => Some('\U{0007}')
    case 'b' => Some('\U{0008}')
    case 'f' => Some('\U{000C}')
    case 'n' => Some('\n')
    case 'r' => Some('\r')
    case 't' => Some('\t')
    case 'v' => Some('\U{000B}')
    case '\\' => Some('\\')
    case '"' => Some('"')
    case _ => None
  }

  /** How many hexadecimal digits follow the letter. */
  function DigitsAfter(c: char): nat {
    if c == 'x' then 2 else if c == 'u' then 4 else if c == 'U' then 8 else 0
  }

  /** The first character that an interpreted string literal stands for, and how much of its text that takes. */
  function Head(s: string): Option<(char, nat)>
    requires s != ""
  {
    if s[0] == '"' || s[0] == '\n' then None
    else if s[0] != '\\' then Some((s[0], 1))
    else if |s| < 2 then None
    else if Simple(s[1]).Some? then Some((Simple(s[1]).value, 2))
    else
      var n := DigitsAfter(s[1]);
      if n == 0 || |s| < n + 2 then None
      else
        var c := CharOf(HexValue(s[2..n + 2]));
        if c.None? then None else Some((c.value, n + 2))
  }

  /** What the text between the quotes of an interpreted string literal stands for. */
  function Unquoted(s: string): Option<string>
    decreases |s|
  {
    if s == "" then Some("")
    else
      var h := Head(s);
      if h.None? || h.value.1 == 0 || h.value.1 > |s| then None
      else
        var rest := Unquoted(s[h.value.1..]);
        if rest.None? then None else Some([h.value.0] + rest.value)
  }

  function Power16(n: nat): nat {
    if n == 0 then 1 else 16 * Power16(n - 1)
  }

  lemma DigitBack(d: nat)
    requires d < 16
    ensures DigitValue(HexDigit(d)) == Some(d)
  {
    if d < 10 { LowDigit(d); } else { HighDigit(d); }
  }

  lemma LowDigit(d: nat)
    requires d < 10
    ensures HexDigit(d) as int == '0' as int + d
  {
    if d < 5 {
      assert d == 0 || d == 1 || d == 2 || d == 3 || d == 4;
    } else {
      assert d == 5 || d == 6 || d == 7 || d == 8 || d == 9;
    }
  }

  lemma HighDigit(d: nat)
    requires 10 <= d < 16
    ensures HexDigit(d) as int == 'a' as int + d - 10
  {
    assert d == 10 || d == 11 || d == 12 || d == 13 || d == 14 || d == 15;
  }

  lemma {:induction false} HexBack(n: nat, digits: nat)
    requires n < Power16(digits)
    ensures |Hex(n, digits)| == digits && HexValue(Hex(n, digits)) == Some(n)
  {
    if digits > 0 {
      var high := Hex(n / 16, digits - 1);
      Sixteenth(n, Power16(digits - 1));
      HexBack(n / 16, digits - 1);
      DigitBack(n % 16);
      HexAppend(high, HexDigit(n % 16));
    }
  }

  lemma Sixteenth(n: nat, p: nat)
    requires n < 16 * p
    ensures n / 16 < p && n == 16 * (n / 16) + n % 16
  {
  }

  lemma HexAppend(high: string, low: char)
    requires HexValue(high).Some? && DigitValue(low).Some?
    ensures HexValue(high + [low]) == Some(16 * HexValue(high).value + DigitValue(low).value)
  {
    var h := high + [low];
    assert h[..|h| - 1] == high && h[|h| - 1] == low;
  }

  lemma Powers()
    ensures Power16(2) == 0x100 && Power16(4) == 0x1_0000 && Power16(8) == 0x1_0000_0000
  {
    assert Power16(3) == 0x1000;
    assert Power16(5) == 0x10_0000 && Power16(6) == 0x100_0000 && Power16(7) == 0x1000_0000;
  }

  lemma HexHead(letter: char, c: char, digits: nat, rest: string)
    requires letter in "xuU" && digits == DigitsAfter(letter) && c as nat < Power16(digits)
    ensures Head(['\\', letter] + Hex(c as nat, digits) + rest) == Some((c, digits + 2))
  {
    HexBack(c as nat, digits);
    var s := ['\\', letter] + Hex(c as nat, digits) + rest;
    assert s[2..digits + 2] == Hex(c as nat, digits);
    assert Simple(letter) == None;
  }

  lemma HeadOfEscape(prints: Printable, c: char, rest: string)
    ensures Head(Escape(prints, c) + rest) == Some((c, |Escape(prints, c)|))
  {
    Powers();
    HexHas(c as int, 2);
    HexHas(c as int, 4);
    HexHas(c as int, 8);
    var e := Escape(prints, c);
    if PlainChar(prints, c) {
      EscapeSame(prints, c);
    } else if e == "\\x" + Hex(c as int, 2) {
      HexHead('x', c, 2, rest);
      assert e == ['\\', 'x'] + Hex(c as nat, 2);
    } else if e == "\\u" + Hex(c as int, 4) {
      HexHead('u', c, 4, rest);
      assert e == ['\\', 'u'] + Hex(c as nat, 4);
    } else if e == "\\U" + Hex(c as int, 8) {
      HexHead('U', c, 8, rest);
      assert e == ['\\', 'U'] + Hex(c as nat, 8);
    } else {
      assert |e| == 2 && e[0] == '\\' && Simple(e[1]) == Some(c);
      assert (e + rest)[0] == e[0] && (e + rest)[1] == e[1];
    }
  }

  /** Whatever the path, the literal written for it stands for it. */
  lemma {:induction false} QuotedStandsFor(prints: Printable, path: string)
    ensures Unquoted(Escaped(prints, path)) == Some(path)
  {
    if path != "" {
      var e, rest := Escape(prints, path[0]), Escaped(prints, path[1..]);
      QuotedStandsFor(prints, path[1..]);
      EscapeSame(prints, path[0]);
      HeadOfEscape(prints, path[0], rest);
      assert (e + rest)[|e|..] == rest && path == [path[0]] + path[1..];
    }
  }

  // ---- reading ------------------------------------------------------------------------------------------------------

  /** The text starts with mod_, a name, a space and a quoted path, and then goes on like this. */
  predicate StartsWith(s: string, id: string, path: string, rest: string) {
    && id != "" && (forall i :: 0 <= i < |id| ==> NameChar(id[i])) && path != "" && '"' !in path
    && s == "mod_" + id + " \"" + path + "\"" + rest
  }

  lemma MatchFound(s: string)
    requires MatchHead(s).Some?
    ensures var (f, rest) := MatchHead(s).value; StartsWith(s, f.id, f.path, rest)
  {
    var r := WordEnd(s, 4);
    var q := IndexFrom(s, '"', r + 2);
    assert s == s[..4] + s[4..r] + [s[r], s[r + 1]] + s[r + 2..q] + [s[q]] + s[q + 1..];
    assert [s[r], s[r + 1]] == " \"" && [s[q]] == "\"";
    forall c ensures WordChar(c) <==> NameChar(c) {}
  }

  lemma StartMatches(s: string, id: string, path: string, rest: string)
    requires StartsWith(s, id, path, rest)
    ensures MatchHead(s) == Some((Found(id, path), rest))
  {
    var r, q := 4 + |id|, 4 + |id| + 2 + |path|;
    assert s[..4] == "mod_" && s[4..r] == id && s[r] == ' ' && s[r + 1] == '"' && s[r + 2..q] == path && s[q] == '"';
    assert s[q + 1..] == rest;
    forall k | 4 <= k < r ensures WordChar(s[k]) { assert s[k] == id[k - 4]; }
    WordEndIs(s, 4, r);
    forall k | r + 2 <= k < q ensures s[k] != '"' { assert s[k] == path[k - r - 2]; }
  }

  /** A match is exactly such a start; there is at most one way to match. */
  lemma MatchExact(s: string, id: string, path: string, rest: string)
    ensures MatchHead(s) == Some((Found(id, path), rest)) <==> StartsWith(s, id, path, rest)
  {
    if MatchHead(s).Some? { MatchFound(s); }
    if StartsWith(s, id, path, rest) { StartMatches(s, id, path, rest); }
  }

  lemma {:induction false} WordEndIs(s: string, i: nat, j: nat)
    requires i <= j < |s| && (forall k :: i <= k < j ==> WordChar(s[k])) && !WordChar(s[j])
    ensures MainFile.WordEnd(s, i) == j
    decreases j - i
  {
    if i < j { WordEndIs(s, i + 1, j); }
  }

  /** What is collected under a name is the path of the last match with the name. */
  lemma {:induction false} CollectedExact(found: seq<Found>, id: string)
    ensures id in Collected(found) <==> exists f :: f in found && f.id == id
    ensures id in Collected(found) ==>
      exists k: nat :: LastNamed(found, id, k) && Collected(found)[id] == found[k].path
  {
    if found != [] {
      var n := |found| - 1;
      var front := found[..n];
      assert found == front + [found[n]];
      CollectedExact(front, id);
      if found[n].id == id {
        assert LastNamed(found, id, n);
      } else if k: nat :| LastNamed(front, id, k) && Collected(front)[id] == front[k].path {
        assert LastNamed(found, id, k);
      }
    }
  }

  ghost predicate LastNamed(found: seq<Found>, id: string, k: nat) {
    k < |found| && found[k].id == id && forall m :: k < m < |found| ==> found[m].id != id
  }

  /** When there is nothing to read: a marker is missing, or the first end marker stands before the first begin
      marker. */
  lemma ReadExact(s: string)
    ensures CurrentModules(s) == NoMarkers <==>
      (forall k: nat :: !OccursAt(s, MARKERS.b1, k)) || (forall k: nat :: !OccursAt(s, MARKERS.e1, k))
    ensures CurrentModules(s) == Panics <==>
      exists i: nat, j: nat :: First(s, MARKERS.b1, 0, i) && First(s, MARKERS.e1, 0, j) && j < i
  {
    IndexFinds(s, MARKERS.b1);
    IndexFinds(s, MARKERS.e1);
    forall k: nat ensures Index(s, MARKERS.b1) == Some(k) <==> First(s, MARKERS.b1, 0, k) {
      IndexExact(s, MARKERS.b1, k);
    }
    forall k: nat ensures Index(s, MARKERS.e1) == Some(k) <==> First(s, MARKERS.e1, 0, k) {
      IndexExact(s, MARKERS.e1, k);
    }
  }

  lemma IndexFinds(s: string, t: string)
    ensures Index(s, t).None? <==> forall k: nat :: !OccursAt(s, t, k)
  {
    IndexAtFinds(s, t, 0);
  }

  lemma {:induction false} IndexAtFinds(s: string, t: string, from: nat)
    ensures IndexAt(s, t, from).None? <==> forall k: nat :: k >= from ==> !OccursAt(s, t, k)
    decreases |s| - from
  {
    if from + |t| <= |s| && !OccursAt(s, t, from) { IndexAtFinds(s, t, from + 1); }
  }

  lemma MarkersExact()
    ensures MARKERS.b1 == "// nexus:imports:begin" && MARKERS.e1 == "// nexus:imports:end"
    ensures MARKERS.b2 == "// nexus:modules:begin" && MARKERS.e2 == "// nexus:modules:end"
  {
  }
}
