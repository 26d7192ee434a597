/** A text with markers, and replacing what stands between two of them. */
module MarkerText {
  import opened Common

  /** strings.Index. */
  function Index(s: string, t: string): (r: Option<nat>)
    ensures r.Some? ==> r.value + |t| <= |s|
  {
    IndexAt(s, t, 0)
  }

  function IndexAt(s: string, t: string, from: nat): (r: Option<nat>)
    ensures r.Some? ==> r.value + |t| <= |s|
    decreases |s| - from
  {
    if from + |t| > |s| then None else if OccursAt(s, t, from) then Some(from) else IndexAt(s, t, from + 1)
  }

  /** The first occurrence. */
  ghost predicate First(s: string, t: string, from: nat, k: nat) {
    from <= k && OccursAt(s, t, k) && forall j: nat :: from <= j < k ==> !OccursAt(s, t, j)
  }

  lemma {:induction false} IndexAtExact(s: string, t: string, from: nat, k: nat)
    ensures IndexAt(s, t, from) == Some(k) <==> First(s, t, from, k)
    decreases |s| - from
  {
    if from + |t| <= |s| && !OccursAt(s, t, from) {
      IndexAtExact(s, t, from + 1, k);
    }
  }

  lemma IndexExact(s: string, t: string, k: nat)
    ensures Index(s, t) == Some(k) <==> First(s, t, 0, k)
  {
    IndexAtExact(s, t, 0, k);
  }

  /** Markers start with two slashes and a space and hold no line break and no tab. */
  ghost predicate IsMarker(m: string) {
    |m| >= 3 && m[1] == '/' && m[2] == ' ' && '\n' !in m && '\t' !in m
  }

  /** Text written between markers starts a new line, ends in a tab and holds no slash before a space. */
  ghost predicate Neutral(text: string) {
    |text| >= 2 && text[0] == '\n' && text[|text| - 1] == '\t' && NoSlashSpace(text)
  }

  predicate SlashSpaceAt(text: string, k: nat) {
    k + 1 < |text| && text[k] == '/' && text[k + 1] == ' '
  }

  ghost predicate NoSlashSpace(text: string) {
    forall k :: !SlashSpaceAt(text, k)
  }

  lemma NoSlashSpaceJoin(a: string, b: string)
    requires NoSlashSpace(a) && NoSlashSpace(b) && (a != "" && a[|a| - 1] == '/' && b != "" ==> b[0] != ' ')
    ensures NoSlashSpace(a + b)
  {
    var s := a + b;
    forall k: nat ensures !SlashSpaceAt(s, k) {
      assert !SlashSpaceAt(a, k);
      if k >= |a| { assert !SlashSpaceAt(b, k - |a|); }
    }
  }

  /** Markers occur in a filled text exactly where they occur before and after the filling. */
  lemma OccursInFilled(pre: string, text: string, post: string, m: string, k: nat)
    requires IsMarker(m) && Neutral(text)
    ensures OccursAt(pre + text + post, m, k) <==>
            OccursAt(pre, m, k) || (k >= |pre + text| && OccursAt(post, m, k - |pre + text|))
  {
    var s := pre + text + post;
    if k + |m| > |pre| && k < |pre + text| && OccursAt(s, m, k) {
      InFilling(pre, text, post, m, k);
    }
  }

  lemma InFilling(pre: string, text: string, post: string, m: string, k: nat)
    requires IsMarker(m) && Neutral(text) && OccursAt(pre + text + post, m, k)
    ensures k + |m| <= |pre| || k >= |pre + text|
  {
    var s := pre + text + post;
    var a, z := |pre|, |pre + text| - 1;
    forall x | 0 <= x < |m| ensures s[k + x] == m[x] && m[x] != '\n' && m[x] != '\t' {
      assert m[x] in m;
    }
    forall x | a <= x <= z ensures s[x] == text[x - a] {}
    assert s[k + 1] == '/' && s[k + 2] == ' ';
    if k + 1 >= a { assert !SlashSpaceAt(text, k + 1 - a); }
    assert s[a] == '\n' && s[z] == '\t';
    forall x | k <= x < k + |m| ensures s[x] != '\n' && s[x] != '\t' { assert s[k + (x - k)] == m[x - k]; }
  }

  /** The text with what is between positions i and j replaced. */
  function Filled(s: string, i: nat, text: string, j: nat): string
    requires i <= j <= |s|
  {
    s[..i] + text + s[j..]
  }

  /** A first occurrence that ends before the replaced part stays where it is. */
  lemma FirstBefore(s: string, i: nat, text: string, j: nat, m: string, k: nat)
    requires i <= j <= |s| && IsMarker(m) && Neutral(text) && First(s, m, 0, k) && k + |m| <= i
    ensures First(Filled(s, i, text, j), m, 0, k)
  {
    forall x: nat | x <= k ensures OccursAt(Filled(s, i, text, j), m, x) <==> OccursAt(s, m, x) {
      OccursInFilled(s[..i], text, s[j..], m, x);
      OccursInPrefix(s, i, m, x);
    }
  }

  lemma OccursInPrefix(s: string, i: nat, m: string, x: nat)
    requires i <= |s|
    ensures OccursAt(s[..i], m, x) <==> OccursAt(s, m, x) && x + |m| <= i
  {
  }

  lemma OccursInSuffix(s: string, j: nat, m: string, x: nat)
    requires j <= |s|
    ensures OccursAt(s[j..], m, x) <==> OccursAt(s, m, j + x)
  {
  }

  /** A first occurrence after the replaced part moves with the text that follows. */
  lemma FirstAfter(s: string, i: nat, text: string, j: nat, m: string, k: nat)
    requires i <= j <= |s| && IsMarker(m) && Neutral(text) && First(s, m, 0, k) && j <= k
    ensures First(Filled(s, i, text, j), m, 0, i + |text| + (k - j))
  {
    var s', k' := Filled(s, i, text, j), i + |text| + (k - j);
    OccursInFilled(s[..i], text, s[j..], m, k');
    OccursInSuffix(s, j, m, k - j);
    forall x: nat | x < k' ensures !OccursAt(s', m, x) {
      OccursInFilled(s[..i], text, s[j..], m, x);
      OccursInPrefix(s, i, m, x);
      if x < k { assert !OccursAt(s, m, x); }
      if x >= i + |text| {
        OccursInSuffix(s, j, m, x - (i + |text|));
        assert !OccursAt(s, m, j + (x - (i + |text|)));
      }
    }
  }

  lemma IndexBefore(s: string, i: nat, text: string, j: nat, m: string, k: nat)
    requires i <= j <= |s| && IsMarker(m) && Neutral(text) && Index(s, m) == Some(k) && k + |m| <= i
    ensures Index(Filled(s, i, text, j), m) == Some(k)
  {
    IndexExact(s, m, k);
    FirstBefore(s, i, text, j, m, k);
    IndexExact(Filled(s, i, text, j), m, k);
  }

  lemma IndexAfter(s: string, i: nat, text: string, j: nat, m: string, k: nat)
    requires i <= j <= |s| && IsMarker(m) && Neutral(text) && Index(s, m) == Some(k) && j <= k
    ensures Index(Filled(s, i, text, j), m) == Some(i + |text| + (k - j))
  {
    IndexExact(s, m, k);
    FirstAfter(s, i, text, j, m, k);
    IndexExact(Filled(s, i, text, j), m, i + |text| + (k - j));
  }

  /** The first places of the two markers of a block, the end after the begin. */
  predicate Block(s: string, b: string, e: string, i: nat, j: nat) {
    Index(s, b) == Some(i) && Index(s, e) == Some(j) && i + |b| <= j
  }

  /** The text with two parts replaced. */
  function FilledBoth(s: string, a1: nat, t1: string, j1: nat, a2: nat, t2: string, j2: nat): string
    requires a1 <= j1 <= a2 <= j2 <= |s|
  {
    s[..a1] + t1 + s[j1..a2] + t2 + s[j2..]
  }

  /** Filling two parts, in either order, gives the same text. */
  lemma FillEitherOrder(s: string, a1: nat, t1: string, j1: nat, a2: nat, t2: string, j2: nat)
    requires a1 <= j1 <= a2 <= j2 <= |s|
    ensures var d := a1 + |t1| - j1;
      Filled(Filled(s, a1, t1, j1), a2 + d, t2, j2 + d) == FilledBoth(s, a1, t1, j1, a2, t2, j2)
    ensures Filled(Filled(s, a2, t2, j2), a1, t1, j1) == FilledBoth(s, a1, t1, j1, a2, t2, j2)
  {
    var s1, s2, d := Filled(s, a1, t1, j1), Filled(s, a2, t2, j2), a1 + |t1| - j1;
    assert s1[..a2 + d] == s[..a1] + t1 + s[j1..a2];
    assert s1[j2 + d..] == s[j2..];
    assert s2[..a1] == s[..a1];
    assert s2[j1..] == s[j1..a2] + t2 + s[j2..];
  }

  /** Where a marker is found once both parts are filled: before them, */
  lemma IndexBeforeBoth(s: string, a1: nat, t1: string, j1: nat, a2: nat, t2: string, j2: nat, m: string, k: nat)
    requires a1 <= j1 <= a2 <= j2 <= |s| && IsMarker(m) && Neutral(t1) && Neutral(t2)
    requires Index(s, m) == Some(k) && k + |m| <= a1
    ensures Index(FilledBoth(s, a1, t1, j1, a2, t2, j2), m) == Some(k)
  {
    FillEitherOrder(s, a1, t1, j1, a2, t2, j2);
    IndexBefore(s, a2, t2, j2, m, k);
    IndexBefore(Filled(s, a2, t2, j2), a1, t1, j1, m, k);
  }

  /** between them, */
  lemma IndexBetweenBoth(s: string, a1: nat, t1: string, j1: nat, a2: nat, t2: string, j2: nat, m: string, k: nat)
    requires a1 <= j1 <= a2 <= j2 <= |s| && IsMarker(m) && Neutral(t1) && Neutral(t2)
    requires Index(s, m) == Some(k) && j1 <= k && k + |m| <= a2
    ensures Index(FilledBoth(s, a1, t1, j1, a2, t2, j2), m) == Some(a1 + |t1| + (k - j1))
  {
    FillEitherOrder(s, a1, t1, j1, a2, t2, j2);
    IndexBefore(s, a2, t2, j2, m, k);
    IndexAfter(Filled(s, a2, t2, j2), a1, t1, j1, m, k);
  }

  /** and after them. */
  lemma IndexAfterBoth(s: string, a1: nat, t1: string, j1: nat, a2: nat, t2: string, j2: nat, m: string, k: nat)
    requires a1 <= j1 <= a2 <= j2 <= |s| && IsMarker(m) && Neutral(t1) && Neutral(t2)
    requires Index(s, m) == Some(k) && j2 <= k
    ensures Index(FilledBoth(s, a1, t1, j1, a2, t2, j2), m) == Some(a1 + |t1| + (a2 - j1) + |t2| + (k - j2))
  {
    FillEitherOrder(s, a1, t1, j1, a2, t2, j2);
    IndexAfter(s, a2, t2, j2, m, k);
    IndexAfter(Filled(s, a2, t2, j2), a1, t1, j1, m, a2 + |t2| + (k - j2));
  }

  /** Both blocks are found again in the filled text. */
  lemma EarlierAgain(s: string, b1: string, e1: string, i1: nat, j1: nat, t1: string, a2: nat, t2: string, j2: nat)
    requires IsMarker(b1) && IsMarker(e1) && Neutral(t1) && Neutral(t2)
    requires Block(s, b1, e1, i1, j1) && j1 + |e1| <= a2 <= j2 <= |s|
    ensures Block(FilledBoth(s, i1 + |b1|, t1, j1, a2, t2, j2), b1, e1, i1, i1 + |b1| + |t1|)
  {
    IndexBeforeBoth(s, i1 + |b1|, t1, j1, a2, t2, j2, b1, i1);
    IndexBetweenBoth(s, i1 + |b1|, t1, j1, a2, t2, j2, e1, j1);
  }

  lemma LaterAgain(s: string, a1: nat, t1: string, j1: nat, b2: string, e2: string, i2: nat, j2: nat, t2: string)
    requires IsMarker(b2) && IsMarker(e2) && Neutral(t1) && Neutral(t2)
    requires Block(s, b2, e2, i2, j2) && a1 <= j1 <= i2
    ensures var i2' := a1 + |t1| + (i2 - j1);
      Block(FilledBoth(s, a1, t1, j1, i2 + |b2|, t2, j2), b2, e2, i2', i2' + |b2| + |t2|)
  {
    IndexBetweenBoth(s, a1, t1, j1, i2 + |b2|, t2, j2, b2, i2);
    IndexAfterBoth(s, a1, t1, j1, i2 + |b2|, t2, j2, e2, j2);
  }

  // ---- two blocks ---------------------------------------------------------------------------------------------------

  /** The markers of the block written first and of the block written second. */
  datatype Markers = Markers(b1: string, e1: string, b2: string, e2: string)

  ghost predicate GoodMarkers(ms: Markers) {
    IsMarker(ms.b1) && IsMarker(ms.e1) && IsMarker(ms.b2) && IsMarker(ms.e2) && |ms.e1| <= |ms.b2| && |ms.e2| <= |ms.b1|
  }

  /** Where the four markers first occur. */
  datatype Places = Places(i1: nat, j1: nat, i2: nat, j2: nat)

  /** Both blocks are there, one after the other. */
  predicate Laid(ms: Markers, s: string, p: Places) {
    Block(s, ms.b1, ms.e1, p.i1, p.j1) && Block(s, ms.b2, ms.e2, p.i2, p.j2) && (p.j1 <= p.i2 || p.j2 <= p.i1)
  }

  predicate InBounds(ms: Markers, s: string, p: Places) {
    && p.i1 + |ms.b1| <= p.j1 <= |s| && p.i2 + |ms.b2| <= p.j2 <= |s|
    && (p.j1 <= p.i2 || p.j2 <= p.i1)
  }

  /** The text outside the blocks, markers included: before, between, after. */
  datatype Outside = Outside(before: string, between: string, after: string, firstBefore: bool)

  function OutsideOf(ms: Markers, s: string, p: Places): Outside
    requires InBounds(ms, s, p)
  {
    if p.j1 <= p.i2 then Outside(s[..p.i1 + |ms.b1|], s[p.j1..p.i2 + |ms.b2|], s[p.j2..], true)
    else Outside(s[..p.i2 + |ms.b2|], s[p.j2..p.i1 + |ms.b1|], s[p.j1..], false)
  }

  function Rendered(o: Outside, t1: string, t2: string): string {
    if o.firstBefore then o.before + t1 + o.between + t2 + o.after else o.before + t2 + o.between + t1 + o.after
  }

  /** The places in the rendered text. */
  function Moved(ms: Markers, p: Places, n1: nat, n2: nat): Places
    requires p.j1 <= p.i2 || p.j2 <= p.i1
  {
    if p.j1 <= p.i2 then
      var j1 := p.i1 + |ms.b1| + n1;
      var i2 := j1 + (p.i2 - p.j1);
      Places(p.i1, j1, i2, i2 + |ms.b2| + n2)
    else
      var j2 := p.i2 + |ms.b2| + n2;
      var i1 := j2 + (p.i1 - p.j2);
      Places(i1, i1 + |ms.b1| + n1, p.i2, j2)
  }

  /** replaceBetween, given the text to put between the markers. */
  function ReplaceBetween(s: string, begin: string, end: string, text: string): Option<string> {
    var i, j := Index(s, begin), Index(s, end);
    if i.None? || j.None? || j.value < i.value then None
    else Some(s[..i.value + |begin|] + text + s[j.value..])
  }

  function ReplaceTwo(ms: Markers, s: string, t1: string, t2: string): Option<string> {
    var r := ReplaceBetween(s, ms.b1, ms.e1, t1);
    if r.None? then None else ReplaceBetween(r.value, ms.b2, ms.e2, t2)
  }

  lemma ReplacesBlock(s: string, b: string, e: string, i: nat, j: nat, t: string)
    requires Block(s, b, e, i, j)
    ensures ReplaceBetween(s, b, e, t) == Some(Filled(s, i + |b|, t, j))
  {
  }

  lemma ReplaceEarlierFirst(ms: Markers, s: string, p: Places, t1: string, t2: string)
    requires GoodMarkers(ms) && Laid(ms, s, p) && Neutral(t1) && p.j1 <= p.i2
    ensures ReplaceTwo(ms, s, t1, t2) == Some(FilledBoth(s, p.i1 + |ms.b1|, t1, p.j1, p.i2 + |ms.b2|, t2, p.j2))
  {
    var a := p.i1 + |ms.b1|;
    var s1, d := Filled(s, a, t1, p.j1), a + |t1| - p.j1;
    ReplacesBlock(s, ms.b1, ms.e1, p.i1, p.j1, t1);
    IndexAfter(s, a, t1, p.j1, ms.b2, p.i2);
    IndexAfter(s, a, t1, p.j1, ms.e2, p.j2);
    ReplacesBlock(s1, ms.b2, ms.e2, p.i2 + d, p.j2 + d, t2);
    FillEitherOrder(s, a, t1, p.j1, p.i2 + |ms.b2|, t2, p.j2);
  }

  lemma ReplaceLaterFirst(ms: Markers, s: string, p: Places, t1: string, t2: string)
    requires GoodMarkers(ms) && Laid(ms, s, p) && Neutral(t1) && p.j2 <= p.i1
    ensures ReplaceTwo(ms, s, t1, t2) == Some(FilledBoth(s, p.i2 + |ms.b2|, t2, p.j2, p.i1 + |ms.b1|, t1, p.j1))
  {
    var a := p.i1 + |ms.b1|;
    ReplacesBlock(s, ms.b1, ms.e1, p.i1, p.j1, t1);
    IndexBefore(s, a, t1, p.j1, ms.b2, p.i2);
    IndexBefore(s, a, t1, p.j1, ms.e2, p.j2);
    ReplacesBlock(Filled(s, a, t1, p.j1), ms.b2, ms.e2, p.i2, p.j2, t2);
    FillEitherOrder(s, p.i2 + |ms.b2|, t2, p.j2, a, t1, p.j1);
  }

  lemma RenderedFills(ms: Markers, s: string, p: Places, t1: string, t2: string)
    requires InBounds(ms, s, p)
    ensures Rendered(OutsideOf(ms, s, p), t1, t2) ==
            if p.j1 <= p.i2 then FilledBoth(s, p.i1 + |ms.b1|, t1, p.j1, p.i2 + |ms.b2|, t2, p.j2)
            else FilledBoth(s, p.i2 + |ms.b2|, t2, p.j2, p.i1 + |ms.b1|, t1, p.j1)
  {
    var o := OutsideOf(ms, s, p);
    if p.j1 <= p.i2 {
      assert o == Outside(s[..p.i1 + |ms.b1|], s[p.j1..p.i2 + |ms.b2|], s[p.j2..], true);
    } else {
      assert o == Outside(s[..p.i2 + |ms.b2|], s[p.j2..p.i1 + |ms.b1|], s[p.j1..], false);
    }
  }

  /** Replacing changes what is inside the blocks and nothing else. */
  lemma ReplaceTwoRenders(ms: Markers, s: string, p: Places, t1: string, t2: string)
    requires GoodMarkers(ms) && Laid(ms, s, p) && Neutral(t1)
    ensures ReplaceTwo(ms, s, t1, t2) == Some(Rendered(OutsideOf(ms, s, p), t1, t2))
  {
    RenderedFills(ms, s, p, t1, t2);
    if p.j1 <= p.i2 { ReplaceEarlierFirst(ms, s, p, t1, t2); } else { ReplaceLaterFirst(ms, s, p, t1, t2); }
  }

  lemma BothAgain(s: string, b1: string, e1: string, i1: nat, j1: nat, t1: string,
                  b2: string, e2: string, i2: nat, j2: nat, t2: string)
    requires IsMarker(b1) && IsMarker(e1) && IsMarker(b2) && IsMarker(e2) && Neutral(t1) && Neutral(t2)
    requires Block(s, b1, e1, i1, j1) && Block(s, b2, e2, i2, j2) && j1 <= i2 && |e1| <= |b2|
    ensures var s', k := FilledBoth(s, i1 + |b1|, t1, j1, i2 + |b2|, t2, j2), i1 + |b1| + |t1| + (i2 - j1);
      Block(s', b1, e1, i1, i1 + |b1| + |t1|) && Block(s', b2, e2, k, k + |b2| + |t2|)
  {
    EarlierAgain(s, b1, e1, i1, j1, t1, i2 + |b2|, t2, j2);
    LaterAgain(s, i1 + |b1|, t1, j1, b2, e2, i2, j2, t2);
  }

  lemma LaidEarlierFirst(ms: Markers, s: string, p: Places, t1: string, t2: string)
    requires GoodMarkers(ms) && Laid(ms, s, p) && Neutral(t1) && Neutral(t2) && p.j1 <= p.i2
    ensures Laid(ms, FilledBoth(s, p.i1 + |ms.b1|, t1, p.j1, p.i2 + |ms.b2|, t2, p.j2), Moved(ms, p, |t1|, |t2|))
  {
    BothAgain(s, ms.b1, ms.e1, p.i1, p.j1, t1, ms.b2, ms.e2, p.i2, p.j2, t2);
  }

  lemma LaidLaterFirst(ms: Markers, s: string, p: Places, t1: string, t2: string)
    requires GoodMarkers(ms) && Laid(ms, s, p) && Neutral(t1) && Neutral(t2) && p.j2 <= p.i1
    ensures Laid(ms, FilledBoth(s, p.i2 + |ms.b2|, t2, p.j2, p.i1 + |ms.b1|, t1, p.j1), Moved(ms, p, |t1|, |t2|))
  {
    BothAgain(s, ms.b2, ms.e2, p.i2, p.j2, t2, ms.b1, ms.e1, p.i1, p.j1, t1);
  }

  /** The text is well laid again, */
  lemma RenderedLaid(ms: Markers, s: string, p: Places, t1: string, t2: string)
    requires GoodMarkers(ms) && Laid(ms, s, p) && Neutral(t1) && Neutral(t2)
    ensures Laid(ms, Rendered(OutsideOf(ms, s, p), t1, t2), Moved(ms, p, |t1|, |t2|))
  {
    RenderedFills(ms, s, p, t1, t2);
    if p.j1 <= p.i2 { LaidEarlierFirst(ms, s, p, t1, t2); } else { LaidLaterFirst(ms, s, p, t1, t2); }
  }

  lemma FiveParts(a: string, t1: string, b: string, t2: string, c: string)
    ensures var s := a + t1 + b + t2 + c;
      && s[..|a|] == a && s[|a|..|a| + |t1|] == t1 && s[|a| + |t1|..|a| + |t1| + |b|] == b
      && s[|a| + |t1| + |b|..|a| + |t1| + |b| + |t2|] == t2 && s[|a| + |t1| + |b| + |t2|..] == c
  {
  }

  lemma FilledParts(s: string, a1: nat, t1: string, j1: nat, a2: nat, t2: string, j2: nat)
    requires a1 <= j1 <= a2 <= j2 <= |s|
    ensures var s' := FilledBoth(s, a1, t1, j1, a2, t2, j2);
      var k := a1 + |t1| + (a2 - j1);
      && |s'| == k + |t2| + (|s| - j2) && s'[..a1] == s[..a1] && s'[a1..a1 + |t1|] == t1
        && s'[a1 + |t1|..k] == s[j1..a2]
      && s'[k..k + |t2|] == t2 && s'[k + |t2|..] == s[j2..]
  {
    FiveParts(s[..a1], t1, s[j1..a2], t2, s[j2..]);
  }

  /** with the same text outside the blocks, and each text inside its block. */
  lemma RenderedParts(ms: Markers, s: string, p: Places, t1: string, t2: string)
    requires InBounds(ms, s, p) && ms.b1 != ""
    ensures var s', p' := Rendered(OutsideOf(ms, s, p), t1, t2), Moved(ms, p, |t1|, |t2|);
      && InBounds(ms, s', p') && OutsideOf(ms, s', p') == OutsideOf(ms, s, p)
      && s'[p'.i1 + |ms.b1|..p'.j1] == t1 && s'[p'.i2 + |ms.b2|..p'.j2] == t2
  {
    RenderedFills(ms, s, p, t1, t2);
    if p.j1 <= p.i2 { PartsEarlierFirst(ms, s, p, t1, t2); } else { PartsLaterFirst(ms, s, p, t1, t2); }
  }

  lemma PartsEarlierFirst(ms: Markers, s: string, p: Places, t1: string, t2: string)
    requires InBounds(ms, s, p) && p.j1 <= p.i2
    ensures var s' := FilledBoth(s, p.i1 + |ms.b1|, t1, p.j1, p.i2 + |ms.b2|, t2, p.j2);
      var p' := Moved(ms, p, |t1|, |t2|);
      && InBounds(ms, s', p') && OutsideOf(ms, s', p') == OutsideOf(ms, s, p)
      && s'[p'.i1 + |ms.b1|..p'.j1] == t1 && s'[p'.i2 + |ms.b2|..p'.j2] == t2
  {
    FilledParts(s, p.i1 + |ms.b1|, t1, p.j1, p.i2 + |ms.b2|, t2, p.j2);
  }

  lemma PartsLaterFirst(ms: Markers, s: string, p: Places, t1: string, t2: string)
    requires InBounds(ms, s, p) && p.j1 > p.i2 && ms.b1 != ""
    ensures var s' := FilledBoth(s, p.i2 + |ms.b2|, t2, p.j2, p.i1 + |ms.b1|, t1, p.j1);
      var p' := Moved(ms, p, |t1|, |t2|);
      && InBounds(ms, s', p') && OutsideOf(ms, s', p') == OutsideOf(ms, s, p)
      && s'[p'.i1 + |ms.b1|..p'.j1] == t1 && s'[p'.i2 + |ms.b2|..p'.j2] == t2
  {
    FilledParts(s, p.i2 + |ms.b2|, t2, p.j2, p.i1 + |ms.b1|, t1, p.j1);
  }

  lemma BlockText(s: string, m: string, i: nat, j: nat)
    requires Index(s, m) == Some(i) && i + |m| <= j <= |s|
    ensures s[i..j] == m + s[i + |m|..j]
  {
    IndexExact(s, m, i);
  }
}
