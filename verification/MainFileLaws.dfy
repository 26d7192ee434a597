/** What writing and reading the module list of main.go preserve. */
module MainFileLaws {
  import opened Common
  import opened Names
  import opened MarkerText
  import opened MainFile

  // ---- escapes ---------------------------------------------------------------------------------------------------

  /** A printable character that has no meaning of its own between quotes. */
  predicate PlainChar(prints: Printable, c: char) {
    c != '"' && c != '\\' && if c < '\U{0080}' then ' ' <= c != '\U{007F}' else prints(c)
  }

  lemma HexHas(n: nat, digits: nat)
    ensures |Hex(n, digits)| == digits && forall c :: c in Hex(n, digits) ==> DigitChar(c) || LowerChar(c)
  {
  }

  lemma EscapeSame(prints: Printable, c: char)
    ensures Escape(prints, c) == [c] <==> PlainChar(prints, c)
    ensures |Escape(prints, c)| >= 1
    ensures !PlainChar(prints, c) ==> |Escape(prints, c)| >= 2
    ensures c != ' ' ==> ' ' !in Escape(prints, c)
    ensures c != '/' ==> '/' !in Escape(prints, c)
    ensures c != '"' ==> '"' !in Escape(prints, c)
  {
    HexHas(c as int, 2);
    HexHas(c as int, 4);
    HexHas(c as int, 8);
  }

  // ---- what is written is neutral between markers ---------------------------------------------------------------

  /** In no path a slash is followed by a space, so no path can hold a marker. */
  ghost predicate MarkerFree(mods: Mods) {
    forall id :: id in mods ==> NoSlashSpace(mods[id])
  }

  lemma ImportMarkers()
    ensures IsMarker(MARKERS.b1) && IsMarker(MARKERS.e1) && |MARKERS.b1| == 22 && |MARKERS.e1| == 20
  {
  }

  lemma ModuleMarkers()
    ensures IsMarker(MARKERS.b2) && IsMarker(MARKERS.e2) && |MARKERS.b2| == 22 && |MARKERS.e2| == 20
  {
  }

  lemma MarkersAreGood()
    ensures GoodMarkers(MARKERS)
  {
    ImportMarkers();
    ModuleMarkers();
  }

  lemma {:induction false} EscapedNeutral(prints: Printable, s: string)
    requires NoSlashSpace(s)
    ensures NoSlashSpace(Escaped(prints, s))
    ensures s != "" && s[0] != ' ' ==> Escaped(prints, s) != "" && Escaped(prints, s)[0] != ' '
  {
    if s != "" {
      var e := Escape(prints, s[0]);
      EscapeSame(prints, s[0]);
      forall k: nat ensures !SlashSpaceAt(s[1..], k) { assert !SlashSpaceAt(s, k + 1); }
      EscapedNeutral(prints, s[1..]);
      assert s[0] != ' ' ==> e[0] != ' ' by { assert e[0] in e; }
      forall k: nat ensures !SlashSpaceAt(e, k) {
        if k < |e| { assert e[k] in e; }
      }
      assert e[|e| - 1] in e && !SlashSpaceAt(s, 0);
      NoSlashSpaceJoin(e, Escaped(prints, s[1..]));
    }
  }

  lemma AliasWord(id: string)
    ensures forall k :: 0 <= k < |Alias(id)| ==> WordChar(Alias(id)[k])
  {
  }

  lemma ImportLineNeutral(prints: Printable, id: string, path: string)
    requires NoSlashSpace(path)
    ensures NoSlashSpace(ImportLine(prints, id, path))
  {
    EscapedNeutral(prints, path);
    AliasWord(id);
    var a, b := "\t" + Alias(id), " \"";
    assert forall k :: 0 <= k < |a| ==> a[k] != '/' && a[k] != ' ';
    var ab := a + b;
    forall k: nat ensures !SlashSpaceAt(ab, k) {
      if k < |a| { assert ab[k] == a[k]; }
    }
    NoSlashSpaceJoin(Escaped(prints, path), "\"");
    NoSlashSpaceJoin(ab, Escaped(prints, path) + "\"");
    assert ImportLine(prints, id, path) == ab + (Escaped(prints, path) + "\"");
  }

  lemma ModuleLineNeutral(id: string)
    ensures NoSlashSpace(ModuleLine(id))
  {
    AliasWord(id);
    var a, b := "\t\t" + Alias(id), ".New(),";
    assert forall k :: 0 <= k < |a| ==> a[k] != '/' && a[k] != ' ';
    assert NoSlashSpace(a) && NoSlashSpace(b);
    NoSlashSpaceJoin(a, b);
  }

  ghost predicate PlainLine(l: string) {
    NoSlashSpace(l) && l != "" && l[0] != ' '
  }

  lemma {:induction false} JoinNeutral(lines: seq<string>)
    requires forall l :: l in lines ==> PlainLine(l)
    ensures NoSlashSpace(Join(lines)) && (lines != [] ==> Join(lines) != "" && Join(lines)[0] != ' ')
  {
    if |lines| == 1 {
      assert lines[0] in lines;
    } else if |lines| > 1 {
      assert lines[0] in lines;
      assert forall l :: l in lines[1..] ==> l in lines;
      JoinNeutral(lines[1..]);
      NoSlashSpaceJoin("\n", Join(lines[1..]));
      NoSlashSpaceJoin(lines[0], "\n" + Join(lines[1..]));
      assert Join(lines) == lines[0] + ("\n" + Join(lines[1..]));
    }
  }

  lemma FillingNeutral(lines: seq<string>, indent: string)
    requires forall l :: l in lines ==> PlainLine(l)
    requires indent == "\t" || indent == "\t\t"
    ensures Neutral(Filling(lines, indent))
  {
    JoinNeutral(lines);
    var body := if lines == [] then "" else Join(lines) + "\n";
    if lines != [] { NoSlashSpaceJoin(Join(lines), "\n"); }
    NoSlashSpaceJoin("\n", body);
    NoSlashSpaceJoin("\n" + body, indent);
    assert Filling(lines, indent) == "\n" + body + indent;
  }

  lemma TextsNeutral(prints: Printable, mods: Mods)
    requires MarkerFree(mods)
    ensures Neutral(ImportText(prints, mods)) && Neutral(ModuleText(mods))
  {
    var ids := Ids(mods);
    var imports, modules := ImportLines(prints, ids, mods), ModuleLines(ids);
    forall l | l in imports ensures PlainLine(l) {
      var i :| 0 <= i < |imports| && imports[i] == l;
      assert ids[i] in mods;
      ImportLineNeutral(prints, ids[i], mods[ids[i]]);
    }
    forall l | l in modules ensures PlainLine(l) {
      var i :| 0 <= i < |modules| && modules[i] == l;
      ModuleLineNeutral(ids[i]);
    }
    FillingNeutral(imports, "\t");
    FillingNeutral(modules, "\t\t");
  }

  // ---- writing -----------------------------------------------------------------------------------------------------

  ghost predicate WellLaid(s: string) {
    exists p :: Laid(MARKERS, s, p)
  }

  lemma WriteOnce(ms: Markers, s: string, p: Places, t1: string, t2: string)
    requires GoodMarkers(ms) && Laid(ms, s, p) && Neutral(t1) && Neutral(t2)
    ensures var s', p' := Rendered(OutsideOf(ms, s, p), t1, t2), Moved(ms, p, |t1|, |t2|);
      && ReplaceTwo(ms, s, t1, t2) == Some(s') && Laid(ms, s', p')
      && OutsideOf(ms, s', p') == OutsideOf(ms, s, p) && s'[p'.i1..p'.j1] == ms.b1 + t1
      && s'[p'.i1 + |ms.b1|..p'.j1] == t1 && s'[p'.i2 + |ms.b2|..p'.j2] == t2
  {
    var s', p' := Rendered(OutsideOf(ms, s, p), t1, t2), Moved(ms, p, |t1|, |t2|);
    ReplaceTwoRenders(ms, s, p, t1, t2);
    RenderedLaid(ms, s, p, t1, t2);
    RenderedParts(ms, s, p, t1, t2);
    BlockText(s', ms.b1, p'.i1, p'.j1);
  }

  /** Writing a well-laid file succeeds, keeps the text outside the two blocks, and leaves the file well laid. */
  lemma WriteKeepsOutside(prints: Printable, s: string, p: Places, mods: Mods) returns (p': Places)
    requires Laid(MARKERS, s, p) && MarkerFree(mods)
    ensures SetMain(prints, s, mods).Some?
    ensures Laid(MARKERS, SetMain(prints, s, mods).value, p')
      && OutsideOf(MARKERS, SetMain(prints, s, mods).value, p') == OutsideOf(MARKERS, s, p)
  {
    MarkersAreGood();
    TextsNeutral(prints, mods);
    WriteOnce(MARKERS, s, p, ImportText(prints, mods), ModuleText(mods));
    p' := Moved(MARKERS, p, |ImportText(prints, mods)|, |ModuleText(mods)|);
  }

  lemma WriteOver(ms: Markers, s: string, p: Places, t1: string, t2: string, u1: string, u2: string)
    requires GoodMarkers(ms) && Laid(ms, s, p) && Neutral(t1) && Neutral(t2) && Neutral(u1) && Neutral(u2)
    ensures ReplaceTwo(ms, s, t1, t2).Some?
    ensures ReplaceTwo(ms, ReplaceTwo(ms, s, t1, t2).value, u1, u2) == ReplaceTwo(ms, s, u1, u2)
  {
    WriteOnce(ms, s, p, t1, t2);
    ReplaceTwoRenders(ms, s, p, u1, u2);
    ReplaceTwoRenders(ms, Rendered(OutsideOf(ms, s, p), t1, t2), Moved(ms, p, |t1|, |t2|), u1, u2);
  }

  /** The last write wins: what was written before leaves no trace. */
  lemma LastWriteWins(prints: Printable, s: string, m1: Mods, m2: Mods)
    requires WellLaid(s) && MarkerFree(m1) && MarkerFree(m2)
    ensures SetMain(prints, s, m1).Some? && SetMain(prints, SetMain(prints, s, m1).value, m2) == SetMain(prints, s, m2)
  {
    MarkersAreGood();
    TextsNeutral(prints, m1);
    TextsNeutral(prints, m2);
    var p :| Laid(MARKERS, s, p);
    WriteOver(MARKERS, s, p, ImportText(prints, m1), ModuleText(m1), ImportText(prints, m2), ModuleText(m2));
  }

  // ---- reading back -------------------------------------------------------------------------------------------------

  predicate MayStart(a: string, k: nat) {
    k < |a| && a[k] == 'm' && (k + 1 == |a| || a[k + 1] == 'o')
  }

  ghost predicate NoMatchStart(a: string) {
    forall k :: !MayStart(a, k)
  }

  /** Text in which no alias can start is skipped. */
  lemma {:induction false} SkipText(a: string, rest: string)
    requires NoMatchStart(a)
    ensures FindAll(a + rest) == FindAll(rest)
  {
    if a == "" {
      assert a + rest == rest;
    } else {
      var s := a + rest;
      assert s[0] == a[0] && s[1..] == a[1..] + rest;
      assert !MayStart(a, 0);
      assert |s| >= 4 ==> s[..4][0] == s[0] && s[..4][1] == s[1];
      forall k: nat ensures !MayStart(a[1..], k) { assert !MayStart(a, k + 1); }
      SkipText(a[1..], rest);
    }
  }

  /** What one import line looks like to the reader. */
  function Line(id: string, value: string): string {
    "mod_" + id + " \"" + value + "\""
  }

  lemma MatchLine(id: string, value: string, rest: string)
    requires ShortId(id) && value != "" && '"' !in value
    ensures MatchHead(Line(id, value) + rest) == Some((Found(id, value), rest))
  {
    var s := Line(id, value) + rest;
    var r, q := 4 + |id|, 4 + |id| + 2 + |value|;
    assert s[..4] == "mod_";
    assert s[4..r] == id && s[r] == ' ' && s[r + 1] == '"' && s[r + 2..q] == value && s[q] == '"' && s[q + 1..] == rest;
    forall k | 4 <= k < r ensures WordChar(s[k]) { assert s[k] == s[4..r][k - 4]; }
    forall k | r + 2 <= k < q ensures s[k] != '"' {
      assert s[k] == s[r + 2..q][k - r - 2] && s[k] in value;
    }
    assert IndexFrom(s, '"', r + 2) == q;
  }

  /** The entries as the reader finds them. */
  function Entries(prints: Printable, ids: seq<string>, mods: Mods): seq<Found>
    requires forall x :: x in ids ==> x in mods
  {
    seq(|ids|, i requires 0 <= i < |ids| => Found(ids[i], Escaped(prints, mods[ids[i]])))
  }

  ghost predicate Readable(ids: seq<string>, mods: Mods) {
    forall x :: x in ids ==> x in mods && ShortId(x) && mods[x] != "" && '"' !in mods[x]
  }

  lemma {:induction false} EscapedQuoteFree(prints: Printable, v: string)
    requires '"' !in v
    ensures '"' !in Escaped(prints, v) && (v != "" ==> Escaped(prints, v) != "")
  {
    if v != "" {
      EscapedQuoteFree(prints, v[1..]);
      assert v[0] in v;
      EscapeSame(prints, v[0]);
    }
  }

  lemma AliasIsPlain(id: string)
    requires ShortId(id)
    ensures Alias(id) == "mod_" + id
  {
  }

  lemma LineOf(prints: Printable, id: string, path: string)
    requires ShortId(id)
    ensures ImportLine(prints, id, path) == "\t" + Line(id, Escaped(prints, path))
  {
    AliasIsPlain(id);
  }

  lemma ReadBare(id: string, value: string, rest: string)
    requires ShortId(id) && value != "" && '"' !in value
    ensures FindAll(Line(id, value) + rest) == [Found(id, value)] + FindAll(rest)
  {
    MatchLine(id, value, rest);
  }

  lemma TabbedLine(prints: Printable, id: string, path: string, rest: string)
    requires ShortId(id)
    ensures ImportLine(prints, id, path) + rest == "\t" + (Line(id, Escaped(prints, path)) + rest)
  {
    LineOf(prints, id, path);
  }

  /** One line, and the line break and tab around it, give one entry. */
  lemma ReadLine(prints: Printable, id: string, path: string, rest: string)
    requires ShortId(id) && path != "" && '"' !in path
    ensures FindAll(ImportLine(prints, id, path) + rest) == [Found(id, Escaped(prints, path))] + FindAll(rest)
  {
    var value := Escaped(prints, path);
    EscapedQuoteFree(prints, path);
    TabbedLine(prints, id, path, rest);
    SkipText("\t", Line(id, value) + rest);
    ReadBare(id, value, rest);
  }

  lemma ReadLineBreak(prints: Printable, id: string, path: string, rest: string)
    requires ShortId(id) && path != "" && '"' !in path
    ensures FindAll(ImportLine(prints, id, path) + ("\n" + rest)) == [Found(id, Escaped(prints, path))] + FindAll(rest)
  {
    ReadLine(prints, id, path, "\n" + rest);
    SkipText("\n", rest);
  }

  lemma JoinNext(lines: seq<string>, end: string)
    requires lines != []
    ensures Join(lines) + end == if |lines| == 1 then lines[0] + end else lines[0] + ("\n" + (Join(lines[1..]) + end))
  {
  }

  lemma ListsNext(prints: Printable, ids: seq<string>, mods: Mods)
    requires ids != [] && forall x :: x in ids ==> x in mods
    ensures ImportLines(prints, ids, mods) == [ImportLine(prints, ids[0], mods[ids[0]])]
      + ImportLines(prints, ids[1..], mods)
    ensures Entries(prints, ids, mods) == [Found(ids[0], Escaped(prints, mods[ids[0]]))]
      + Entries(prints, ids[1..], mods)
  {
  }

  lemma {:induction false} ReadLines(prints: Printable, ids: seq<string>, mods: Mods)
    requires Readable(ids, mods) && ids != []
    ensures FindAll(Join(ImportLines(prints, ids, mods)) + "\n\t") == Entries(prints, ids, mods)
    decreases |ids|
  {
    var id, end := ids[0], "\n\t";
    var line, lines := ImportLine(prints, id, mods[id]), ImportLines(prints, ids[1..], mods);
    ListsNext(prints, ids, mods);
    assert ([line] + lines)[1..] == lines;
    JoinNext([line] + lines, end);
    if |ids| == 1 {
      assert end == "\n" + "\t";
      ReadLineBreak(prints, id, mods[id], "\t");
      ReadEnd();
    } else {
      assert forall x :: x in ids[1..] ==> x in ids;
      ReadLines(prints, ids[1..], mods);
      ReadLineBreak(prints, id, mods[id], Join(lines) + end);
    }
  }

  lemma ReadEnd()
    ensures FindAll("\t") == []
  {
    SkipText("\t", "");
    assert "\t" + "" == "\t";
  }

  /** The imports block, begin marker included, reads back as its entries. */
  lemma ReadBlock(prints: Printable, mods: Mods)
    requires Readable(Ids(mods), mods)
    ensures FindAll(MARKERS.b1 + ImportText(prints, mods)) == Entries(prints, Ids(mods), mods)
  {
    var ids := Ids(mods);
    var begin := MARKERS.b1 + "\n";
    BeginNoMatch();
    if ids == [] {
      assert MARKERS.b1 + ImportText(prints, mods) == begin + "\t";
      SkipText(begin, "\t");
      ReadEnd();
    } else {
      ReadLines(prints, ids, mods);
      var rest := Join(ImportLines(prints, ids, mods)) + "\n\t";
      assert MARKERS.b1 + ImportText(prints, mods) == begin + rest;
      SkipText(begin, rest);
    }
  }

  lemma BeginNoMatch()
    ensures NoMatchStart(MARKERS.b1 + "\n")
  {
  }

  lemma {:induction false} CollectedEntries(prints: Printable, ids: seq<string>, mods: Mods, x: string)
    requires Distinct(ids) && forall y :: y in ids ==> y in mods
    ensures x in Collected(Entries(prints, ids, mods)) <==> x in ids
    ensures x in ids ==> Collected(Entries(prints, ids, mods))[x] == Escaped(prints, mods[x])
  {
    if ids != [] {
      var n := |ids| - 1;
      assert ids == ids[..n] + [ids[n]];
      CollectedEntries(prints, ids[..n], mods, x);
      assert Entries(prints, ids, mods)[..n] == Entries(prints, ids[..n], mods);
    }
  }

  lemma {:induction false} CollectedFrom(found: seq<Found>, x: string)
    requires x in Collected(found)
    ensures exists f :: f in found && f.id == x && f.path == Collected(found)[x]
  {
    var n := |found| - 1;
    if found[n].id == x {
      assert found[n] in found;
    } else {
      CollectedFrom(found[..n], x);
      var f :| f in found[..n] && f.id == x && f.path == Collected(found[..n])[x];
      assert f in found;
    }
  }

  /** A path that is written without any escape. */
  predicate PlainPath(prints: Printable, path: string) {
    path != "" && forall i :: 0 <= i < |path| ==> PlainChar(prints, path[i])
  }

  lemma {:induction false} EscapedSame(prints: Printable, path: string)
    ensures Escaped(prints, path) == path <==> forall i :: 0 <= i < |path| ==> PlainChar(prints, path[i])
    ensures |Escaped(prints, path)| >= |path|
  {
    if path != "" {
      EscapedSame(prints, path[1..]);
      EscapeSame(prints, path[0]);
      assert path == [path[0]] + path[1..];
      forall i | 0 <= i < |path[1..]| ensures path[1..][i] == path[i + 1] {}
      if Escaped(prints, path) == path {
        assert Escaped(prints, path)[|Escape(prints, path[0])|..] == Escaped(prints, path[1..]);
        assert PlainChar(prints, path[0]);
      }
    }
  }

  /** What is read back after writing. */
  lemma ReadAfterWrite(prints: Printable, s: string, p: Places, mods: Mods)
    requires Laid(MARKERS, s, p) && MarkerFree(mods)
    ensures SetMain(prints, s, mods).Some?
    ensures CurrentModules(SetMain(prints, s, mods).value)
      == Modules(Collected(FindAll(MARKERS.b1 + ImportText(prints, mods))))
  {
    MarkersAreGood();
    TextsNeutral(prints, mods);
    WriteOnce(MARKERS, s, p, ImportText(prints, mods), ModuleText(mods));
  }

  lemma UnreadablePath(prints: Printable, mods: Mods, id: string)
    requires id in mods && (mods[id] == "" || '"' in mods[id])
    ensures Collected(FindAll(MARKERS.b1 + ImportText(prints, mods))) != mods && !PlainPath(prints, mods[id])
  {
    var found := FindAll(MARKERS.b1 + ImportText(prints, mods));
    if id in Collected(found) { CollectedFrom(found, id); }
    if '"' in mods[id] {
      var i :| 0 <= i < |mods[id]| && mods[id][i] == '"';
      assert !PlainChar(prints, mods[id][i]);
    }
  }

  lemma ReadableBack(prints: Printable, mods: Mods)
    requires Readable(Ids(mods), mods)
    ensures Collected(FindAll(MARKERS.b1 + ImportText(prints, mods))) == mods <==>
      forall id :: id in mods ==> PlainPath(prints, mods[id])
  {
    ReadBlock(prints, mods);
    var back := Collected(Entries(prints, Ids(mods), mods));
    forall id ensures id in back <==> id in mods
              ensures id in mods ==> (back[id] == mods[id] <==> PlainPath(prints, mods[id]))
    {
      CollectedEntries(prints, Ids(mods), mods, id);
      if id in mods {
        assert id in Ids(mods);
        EscapedSame(prints, mods[id]);
      }
    }
  }

  /** Round trip: for valid short ids and paths that can hold no marker, what is read back is what was written exactly
      when every path is non-empty and needs no escape. */
  lemma RoundTrip(prints: Printable, s: string, mods: Mods)
    requires WellLaid(s) && MarkerFree(mods) && forall id :: id in mods ==> ShortId(id)
    ensures SetMain(prints, s, mods).Some?
    ensures CurrentModules(SetMain(prints, s, mods).value) == Modules(mods) <==>
      forall id :: id in mods ==> PlainPath(prints, mods[id])
  {
    var p :| Laid(MARKERS, s, p);
    ReadAfterWrite(prints, s, p, mods);
    if id :| id in mods && (mods[id] == "" || '"' in mods[id]) {
      UnreadablePath(prints, mods, id);
    } else {
      ReadableBack(prints, mods);
    }
  }

  // ---- what is written, line by line --------------------------------------------------------------------------------

  /** An import line: the alias and the quoted path. */
  function AliasLine(prints: Printable, id: string, path: string): string {
    "\tmod_" + id + " \"" + Escaped(prints, path) + "\"\n"
  }

  /** A module constructed from the alias of its import. */
  function NewLine(id: string): string {
    "\t\tmod_" + id + ".New(),\n"
  }

  function AliasLines(prints: Printable, ids: seq<string>, mods: Mods): string
    requires forall id :: id in ids ==> id in mods
  {
    if ids == [] then "" else AliasLine(prints, ids[0], mods[ids[0]]) + AliasLines(prints, ids[1..], mods)
  }

  function NewLines(ids: seq<string>): string {
    if ids == [] then "" else NewLine(ids[0]) + NewLines(ids[1..])
  }

  function Lines(lines: seq<string>): string {
    if lines == [] then "" else Join(lines) + "\n"
  }

  lemma LinesNext(line: string, rest: seq<string>)
    ensures Lines([line] + rest) == line + "\n" + Lines(rest)
  {
    assert ([line] + rest)[1..] == rest;
    if rest != [] { assert Join([line] + rest) + "\n" == line + "\n" + (Join(rest) + "\n"); }
  }

  lemma AliasLineIs(prints: Printable, id: string, path: string)
    requires ShortId(id)
    ensures ImportLine(prints, id, path) + "\n" == AliasLine(prints, id, path)
  {
    AliasIsPlain(id);
    assert "\t" + ("mod_" + id) == "\tmod_" + id;
  }

  lemma NewLineIs(id: string)
    requires ShortId(id)
    ensures ModuleLine(id) + "\n" == NewLine(id)
  {
    AliasIsPlain(id);
    assert "\t\t" + ("mod_" + id) == "\t\tmod_" + id;
  }

  lemma {:induction false} ImportTextLines(prints: Printable, ids: seq<string>, mods: Mods)
    requires forall id :: id in ids ==> id in mods && ShortId(id)
    ensures Lines(ImportLines(prints, ids, mods)) == AliasLines(prints, ids, mods)
    decreases |ids|
  {
    if ids != [] {
      assert forall id :: id in ids[1..] ==> id in ids;
      ImportTextLines(prints, ids[1..], mods);
      ListsNext(prints, ids, mods);
      LinesNext(ImportLine(prints, ids[0], mods[ids[0]]), ImportLines(prints, ids[1..], mods));
      AliasLineIs(prints, ids[0], mods[ids[0]]);
    }
  }

  lemma {:induction false} ModuleTextLines(ids: seq<string>)
    requires forall id :: id in ids ==> ShortId(id)
    ensures Lines(ModuleLines(ids)) == NewLines(ids)
    decreases |ids|
  {
    if ids != [] {
      assert forall id :: id in ids[1..] ==> id in ids;
      ModuleTextLines(ids[1..]);
      assert ModuleLines(ids) == [ModuleLine(ids[0])] + ModuleLines(ids[1..]);
      LinesNext(ModuleLine(ids[0]), ModuleLines(ids[1..]));
      NewLineIs(ids[0]);
    }
  }

  predicate MarkersStand(s: string, p: Places) {
    && p.i1 + 22 <= p.j1 <= |s| - 20 && p.i2 + 22 <= p.j2 <= |s| - 20
    && s[p.i1..p.i1 + 22] == "// nexus:imports:begin" && s[p.j1..p.j1 + 20] == "// nexus:imports:end"
    && s[p.i2..p.i2 + 22] == "// nexus:modules:begin" && s[p.j2..p.j2 + 20] == "// nexus:modules:end"
  }

  lemma LaidStands(s: string, p: Places)
    requires Laid(MARKERS, s, p)
    ensures MarkersStand(s, p)
  {
    StandsAt(s, MARKERS.b1, p.i1);
    StandsAt(s, MARKERS.e1, p.j1);
    StandsAt(s, MARKERS.b2, p.i2);
    StandsAt(s, MARKERS.e2, p.j2);
  }

  lemma StandsAt(s: string, marker: string, i: nat)
    requires Index(s, marker) == Some(i)
    ensures i + |marker| <= |s| && s[i..i + |marker|] == marker
  {
    IndexExact(s, marker, i);
  }

  /** What setMain writes into a well-laid file for valid short ids: one import and one constructed module for each id,
      both under the alias mod_ and the id, each once and in increasing order of the ids. */
  lemma BothBlocks(prints: Printable, s: string, p: Places, mods: Mods) returns (ids: seq<string>, p': Places)
    requires Laid(MARKERS, s, p) && MarkerFree(mods) && forall id :: id in mods ==> ShortId(id)
    ensures Ordering.Increasing(ids) && Distinct(ids) && forall id :: id in ids <==> id in mods
    ensures SetMain(prints, s, mods).Some? && Laid(MARKERS, SetMain(prints, s, mods).value, p')
    ensures var s' := SetMain(prints, s, mods).value;
      && MarkersStand(s', p')
      && s'[p'.i1 + 22..p'.j1] == "\n" + AliasLines(prints, ids, mods) + "\t"
      && s'[p'.i2 + 22..p'.j2] == "\n" + NewLines(ids) + "\t\t"
  {
    ids := Ids(mods);
    Ordering.SortedInOrder(mods.Keys);
    MarkersAreGood();
    ImportMarkers();
    ModuleMarkers();
    TextsNeutral(prints, mods);
    WriteOnce(MARKERS, s, p, ImportText(prints, mods), ModuleText(mods));
    p' := Moved(MARKERS, p, |ImportText(prints, mods)|, |ModuleText(mods)|);
    TextLines(prints, mods);
    LaidStands(SetMain(prints, s, mods).value, p');
  }

  lemma TextLines(prints: Printable, mods: Mods)
    requires forall id :: id in mods ==> ShortId(id)
    ensures ImportText(prints, mods) == "\n" + AliasLines(prints, Ids(mods), mods) + "\t"
    ensures ModuleText(mods) == "\n" + NewLines(Ids(mods)) + "\t\t"
  {
    ImportTextLines(prints, Ids(mods), mods);
    ModuleTextLines(Ids(mods));
  }
}
