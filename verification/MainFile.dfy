/** The module list in a distribution's main.go: written between markers, and read back by a regular expression. */
module MainFile {
  import opened Common
  import opened Names
  import opened MarkerText
  import Ordering

  /** The markers of the imports and of the module list. */
  const MARKERS := Markers("// nexus:imports:begin", "// nexus:imports:end", "// nexus:modules:begin",
    "// nexus:modules:end")

  /** Short id to import path. */
  type Mods = map<string, string>

  // ---- writing --------------------------------------------------------------------------------------------------

  function Alias(id: string): string {
    "mod_" + seq(|id|, i requires 0 <= i < |id| => if WordChar(id[i]) then id[i] else '_')
  }

  function HexDigit(d: nat): char
    requires d < 16
  {
    "0123456789abcdef"[d]
  }

  /** The lowest digits of n in base 16, the highest first. */
  function Hex(n: nat, digits: nat): string {
    if digits == 0 then "" else Hex(n / 16, digits - 1) + [HexDigit(n % 16)]
  }

  /** Which characters beyond ASCII are printable. */
  type Printable = char -> bool

  /** The %q escapes. */
  function Escape(prints: Printable, c: char): string {
    if c == '"' then "\\\""
    else if c == '\\' then "\\\\"
    else if c == '\n' then "\\n"
    else if c == '\t' then "\\t"
    else if c == '\r' then "\\r"
    else if c == '\U{0007}' then "\\a"
    else if c == '\U{0008}' then "\\b"
    else if c == '\U{000B}' then "\\v"
    else if c == '\U{000C}' then "\\f"
    else if c < ' ' || c == '\U{007F}' then "\\x" + Hex(c as int, 2)
    else if c < '\U{0080}' || prints(c) then [c]
    else if c as int < 0x10000 then "\\u" + Hex(c as int, 4)
    else "\\U" + Hex(c as int, 8)
  }

  function Escaped(prints: Printable, s: string): string {
    if s == "" then "" else Escape(prints, s[0]) + Escaped(prints, s[1..])
  }

  function ImportLine(prints: Printable, id: string, path: string): string {
    "\t" + Alias(id) + " \"" + Escaped(prints, path) + "\""
  }

  function ModuleLine(id: string): string {
    "\t\t" + Alias(id) + ".New(),"
  }

  /** strings.Join with line breaks. */
  function Join(lines: seq<string>): string {
    if lines == [] then "" else if |lines| == 1 then lines[0] else lines[0] + "\n" + Join(lines[1..])
  }

  /** What replaceBetween puts between two markers. */
  function Filling(lines: seq<string>, indent: string): string {
    "\n" + (if lines == [] then "" else Join(lines) + "\n") + indent
  }

  function ImportLines(prints: Printable, ids: seq<string>, mods: Mods): seq<string>
    requires forall x :: x in ids ==> x in mods
  {
    seq(|ids|, i requires 0 <= i < |ids| => ImportLine(prints, ids[i], mods[ids[i]]))
  }

  function ModuleLines(ids: seq<string>): seq<string> {
    seq(|ids|, i requires 0 <= i < |ids| => ModuleLine(ids[i]))
  }

  ghost function Ids(mods: Mods): (ids: seq<string>)
    ensures Distinct(ids) && forall x :: x in ids <==> x in mods
  {
    Ordering.SortedHas(mods.Keys);
    Ordering.Sorted(mods.Keys)
  }

  ghost function ImportText(prints: Printable, mods: Mods): string {
    Filling(ImportLines(prints, Ids(mods), mods), "\t")
  }

  ghost function ModuleText(mods: Mods): string {
    Filling(ModuleLines(Ids(mods)), "\t\t")
  }

  ghost function SetMain(prints: Printable, s: string, mods: Mods): Option<string> {
    ReplaceTwo(MARKERS, s, ImportText(prints, mods), ModuleText(mods))
  }

  // ---- reading --------------------------------------------------------------------------------------------------

  datatype Found = Found(id: string, path: string)

  function WordEnd(s: string, i: nat): (j: nat)
    requires i <= |s|
    ensures i <= j <= |s| && (forall k :: i <= k < j ==> WordChar(s[k])) && (j < |s| ==> !WordChar(s[j]))
    decreases |s| - i
  {
    if i < |s| && WordChar(s[i]) then WordEnd(s, i + 1) else i
  }

  /** A match of the expression at the start of s, and what follows it. A blank ends the name and a quote ends the
      path, so there is at most one way to match. */
  function MatchHead(s: string): (r: Option<(Found, string)>)
    ensures r.Some? ==> |r.value.1| < |s| && r.value.0.path != "" && '"' !in r.value.0.path
  {
    if !HasPrefix(s, "mod_") then None
    else
      var r := WordEnd(s, 4);
      if r == 4 || r + 1 >= |s| || s[r] != ' ' || s[r + 1] != '"' then None
      else
        var q := IndexFrom(s, '"', r + 2);
        if q == r + 2 || q == |s| then None else Some((Found(s[4..r], s[r + 2..q]), s[q + 1..]))
  }

  /** The matches from left to right, none overlapping. */
  function FindAll(s: string): (r: seq<Found>)
    ensures forall f :: f in r ==> f.path != "" && '"' !in f.path
    decreases |s|
  {
    if s == "" then []
    else
      var m := MatchHead(s);
      if m.Some? then [m.value.0] + FindAll(m.value.1) else FindAll(s[1..])
  }

  /** Later matches of a name replace earlier ones. */
  function Collected(found: seq<Found>): Mods {
    if found == [] then map[] else Collected(found[..|found| - 1])[found[|found| - 1].id := found[|found| - 1].path]
  }

  /** Slicing between markers in the wrong order stops the program. */
  datatype Listing = Modules(mods: Mods) | NoMarkers | Panics

  function CurrentModules(s: string): Listing {
    var i, j := Index(s, MARKERS.b1), Index(s, MARKERS.e1);
    if i.None? || j.None? then NoMarkers
    else if j.value < i.value then Panics
    else Modules(Collected(FindAll(s[i.value..j.value])))
  }

  // ---- the file -------------------------------------------------------------------------------------------------

  /** The lines of both blocks, in the order of the ids. */
  method BuildLines(prints: Printable, mods: Mods) returns (imports: seq<string>, modules: seq<string>)
    ensures imports == ImportLines(prints, Ids(mods), mods) && modules == ModuleLines(Ids(mods))
  {
    var ids := Ordering.Sort(mods.Keys);
    assert ids == Ids(mods);
    imports, modules := [], [];
    for i := 0 to |ids|
      invariant imports == ImportLines(prints, ids[..i], mods) && modules == ModuleLines(ids[..i])
    {
      LinesNext(prints, ids, mods, i);
      imports := imports + [ImportLine(prints, ids[i], mods[ids[i]])];
      modules := modules + [ModuleLine(ids[i])];
    }
    assert ids[..|ids|] == ids;
  }

  lemma LinesNext(prints: Printable, ids: seq<string>, mods: Mods, i: nat)
    requires i < |ids| && forall x :: x in ids ==> x in mods
    ensures ImportLines(prints, ids[..i + 1], mods)
      == ImportLines(prints, ids[..i], mods) + [ImportLine(prints, ids[i], mods[ids[i]])]
    ensures ModuleLines(ids[..i + 1]) == ModuleLines(ids[..i]) + [ModuleLine(ids[i])]
  {
  }

  class File {
    var text: string

    constructor (text: string)
      ensures this.text == text
    {
      this.text := text;
    }

    /** setMain: the file is written only when both blocks were found. */
    method Write(prints: Printable, mods: Mods) returns (ok: bool)
      modifies this
      ensures ok <==> SetMain(prints, old(text), mods).Some?
      ensures text == if ok then SetMain(prints, old(text), mods).value else old(text)
    {
      var imports, modules := BuildLines(prints, mods);
      var t := ReplaceBetween(text, MARKERS.b1, MARKERS.e1, Filling(imports, "\t"));
      if t.None? { return false; }
      t := ReplaceBetween(t.value, MARKERS.b2, MARKERS.e2, Filling(modules, "\t\t"));
      if t.None? { return false; }
      text := t.value;
      ok := true;
    }

    /** currentModules. */
    method Read() returns (r: Listing)
      ensures r == CurrentModules(text)
    {
      var i, j := Index(text, MARKERS.b1), Index(text, MARKERS.e1);
      if i.None? || j.None? { return NoMarkers; }
      if j.value < i.value { return Panics; }
      var found := FindAll(text[i.value..j.value]);
      var out := map[];
      for k := 0 to |found|
        invariant out == Collected(found[..k])
      {
        assert found[..k + 1][..k] == found[..k];
        out := out[found[k].id := found[k].path];
      }
      assert found[..|found|] == found;
      r := Modules(out);
    }
  }
}
