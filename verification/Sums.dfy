/** Two independent readers of one SHA256SUMS file: `parse_tree_sums` of
    scripts/sbom.py and the `vendoredMismatch` loop of build.zig. */
module Sums {
  import opened Pieces
  import opened Text
  import PathGate

  /** A name and its digest. */
  type Listed = (string, string)

  datatype Line = Skip | Bad | Entry(of: Listed)

  predicate LowerHex(c: char) { '0' <= c <= '9' || 'a' <= c <= 'f' }

  predicate Hex64(s: string) { |s| == 64 && All(s, LowerHex) }

  /** Where `str.splitlines` breaks. */
  predicate PyBreak(c: char) {
    c in "\n\r\U{0B}\U{0C}\U{1C}\U{1D}\U{1E}\U{85}\U{2028}\U{2029}"
  }

  /** What `str.strip` strips. */
  predicate PySpace(c: char) {
    PyBreak(c) || c in " \t\U{1F}\U{A0}\U{1680}\U{202F}\U{205F}\U{3000}" || '\U{2000}' <= c <= '\U{200A}'
  }

  predicate ZigSpace(c: char) { c in " \t\r" }

  /* ---- lines ---- */

  function FirstBreak(s: string): (k: nat)
    ensures k <= |s| && (k < |s| ==> PyBreak(s[k])) && forall j :: 0 <= j < k ==> !PyBreak(s[j])
  {
    if s == [] || PyBreak(s[0]) then 0
    else
      var k := FirstBreak(s[1..]);
      assert forall j :: 0 < j < k + 1 ==> s[j] == s[1..][j - 1];
      k + 1
  }

  /** `splitlines`: a carriage return and a line feed are one break. */
  function PyLines(s: string): seq<string>
    decreases |s|
  {
    if s == [] then []
    else
      var k := FirstBreak(s);
      var next := if k + 1 < |s| && s[k] == '\r' && s[k + 1] == '\n' then k + 2 else Min(k + 1, |s|);
      [s[..k]] + PyLines(s[next..])
  }

  function LineEnd(s: string): (k: nat)
    ensures k <= |s|
  {
    match Find(s, '\n')
    case None => |s|
    case Some(k) => k
  }

  function AfterLine(s: string): string { s[Min(LineEnd(s) + 1, |s|)..] }

  /** The cursor of build.zig: up to a line feed, and nothing after the last. */
  function ZigLines(s: string): seq<string>
    decreases |s|
  {
    if s == [] then [] else [s[..LineEnd(s)]] + ZigLines(AfterLine(s))
  }

  /* ---- one line ---- */

  /** `partition("  ")`: position of the first double space. */
  function Gap(s: string): Option<nat> {
    if |s| < 2 then None
    else if s[0] == ' ' && s[1] == ' ' then Some(0)
    else
      match Gap(s[1..])
      case None => None
      case Some(k) => Some(k + 1)
  }

  function DropDotSlash(s: string): string { if "./" <= s then s[2..] else s }

  predicate PyLegal(name: string) {
    name != "" && name[0] != '/' && ".." !in PathGate.Split(name) && name != "SHA256SUMS"
  }

  function PyLine(raw: string): Line {
    var line := Trim(raw, PySpace);
    if line == "" || line[0] == '#' then Skip
    else
      match Gap(line)
      case None => Bad
      case Some(k) =>
        if k + 2 > |line| then Bad
        else
          var name := DropDotSlash(line[k + 2..]);
          if Hex64(line[..k]) && PyLegal(name) then Entry((name, line[..k])) else Bad
  }

  predicate TwoDots(s: string) { exists k :: 0 <= k < |s| - 1 && s[k] == '.' == s[k + 1] }

  predicate ZigLegal(name: string) {
    name != "" && name[0] != '/' && !TwoDots(name) && name[|name| - 1] != '/'
  }

  function ZigName(tail: string): string {
    var n := Trim(tail, Blank);
    DropDotSlash(if n != "" && n[0] == '*' then Trim(n[1..], Blank) else n)
  }

  function ZigLine(raw: string): Line {
    var line := Trim(raw, ZigSpace);
    if line == "" || line[0] == '#' then Skip
    else if |line| < 66 || !Hex64(line[..64]) || !ZigLegal(ZigName(line[64..])) then Bad
    else Entry((ZigName(line[64..]), line[..64]))
  }

  /* ---- a whole file ---- */

  /** The entries of a file none of whose lines is malformed. */
  function Collect(lines: seq<Line>): Option<seq<Listed>> {
    if lines == [] then Some([])
    else
      match Collect(lines[..|lines| - 1])
      case None => None
      case Some(es) =>
        match lines[|lines| - 1]
        case Skip => Some(es)
        case Bad => None
        case Entry(e) => Some(es + [e])
  }

  predicate Distinct(es: seq<Listed>) { forall i, j :: 0 <= i < j < |es| ==> es[i].0 != es[j].0 }

  function Map(f: string -> Line, raws: seq<string>): (ls: seq<Line>)
    ensures |ls| == |raws| && forall i :: 0 <= i < |raws| ==> ls[i] == f(raws[i])
  {
    if raws == [] then [] else Map(f, raws[..|raws| - 1]) + [f(raws[|raws| - 1])]
  }

  function PyParse(text: string): Option<seq<Listed>> {
    match Collect(Map(PyLine, PyLines(text)))
    case None => None
    case Some(es) => if es == [] || !Distinct(es) then None else Some(es)
  }

  function ZigParse(text: string): Option<seq<Listed>> {
    match Collect(Map(ZigLine, ZigLines(text)))
    case None => None
    case Some(es) => if es == [] then None else Some(es)
  }

  lemma {:induction false} CollectGrows(a: seq<Line>, b: seq<Line>)
    requires a <= b
    ensures Collect(a).None? ==> Collect(b).None?
    ensures Collect(b).Some? ==> Collect(a).Some? && Collect(a).value <= Collect(b).value
    decreases |b|
  {
    if |a| < |b| {
      CollectGrows(a, b[..|b| - 1]);
    } else {
      assert a == b;
    }
  }

  lemma CollectNext(lines: seq<Line>, k: nat)
    requires k < |lines| && Collect(lines[..k]).Some?
    ensures var es := Collect(lines[..k]).value;
      Collect(lines[..k + 1]) == match lines[k] case Skip => Some(es) case Bad => None case Entry(e) => Some(es + [e])
    ensures Collect(lines[..k + 1]).None? ==> Collect(lines).None?
    ensures Collect(lines).Some? ==>
            Collect(lines[..k + 1]).Some? && Collect(lines[..k + 1]).value <= Collect(lines).value
  {
    assert lines[..k + 1][..k] == lines[..k];
    CollectGrows(lines[..k + 1], lines);
  }

  function Names(es: seq<Listed>): (s: set<string>)
    ensures forall n :: n in s <==> exists i :: 0 <= i < |es| && es[i].0 == n
  {
    set i | 0 <= i < |es| :: es[i].0
  }

  lemma DistinctNext(es: seq<Listed>, e: Listed)
    ensures Distinct(es + [e]) <==> Distinct(es) && e.0 !in Names(es)
    ensures Names(es + [e]) == Names(es) + {e.0}
  {
    var all := es + [e];
    assert all[|es|] == e && forall i :: 0 <= i < |es| ==> all[i] == es[i];
    if Distinct(all) {
      assert forall i, j :: 0 <= i < j < |es| ==> all[i].0 != all[j].0;
      assert forall i :: 0 <= i < |es| ==> all[i].0 != all[|es|].0;
    }
  }

  lemma PrefixDistinct(a: seq<Listed>, b: seq<Listed>)
    requires a <= b && Distinct(b)
    ensures Distinct(a)
  {
  }

  /** `parse_tree_sums`: it stops at the first malformed line or second entry of
      a name. */
  method ParseTreeSums(text: string) returns (r: Option<seq<Listed>>)
    ensures r == PyParse(text)
  {
    var raws := PyLines(text);
    ghost var lines := Map(PyLine, raws);
    var entries: seq<Listed>, seen: set<string> := [], {};
    for k := 0 to |raws|
      invariant Collect(lines[..k]) == Some(entries) && Distinct(entries) && seen == Names(entries)
    {
      CollectNext(lines, k);
      var line := PyLine(raws[k]);
      if line.Bad? { return None; }
      if line.Entry? {
        DistinctNext(entries, line.of);
        if line.of.0 in seen {
          if PyParse(text).Some? { PrefixDistinct(entries + [line.of], Collect(lines).value); }
          return None;
        }
        seen := seen + {line.of.0};
        entries := entries + [line.of];
      }
    }
    assert lines[..|raws|] == lines;
    return if entries == [] then None else Some(entries);
  }

  predicate Agrees(es: seq<Listed>, tree: map<string, string>) {
    forall i :: 0 <= i < |es| ==> es[i].0 in tree && tree[es[i].0] == es[i].1
  }

  lemma AgreesNext(es: seq<Listed>, e: Listed, tree: map<string, string>)
    ensures Agrees(es + [e], tree) <==> Agrees(es, tree) && e.0 in tree && tree[e.0] == e.1
  {
    var all := es + [e];
    assert all[|es|] == e && forall i :: 0 <= i < |es| ==> all[i] == es[i];
  }

  lemma PrefixAgrees(a: seq<Listed>, b: seq<Listed>, tree: map<string, string>)
    requires a <= b && Agrees(b, tree)
    ensures Agrees(a, tree)
  {
  }

  /** The build's check of the vendored files against the list: `tree` gives the
      digest of every file that can be read. */
  method VendoredMismatch(text: string, tree: map<string, string>) returns (clean: bool)
    ensures clean <==> (ZigParse(text).Some? && Agrees(ZigParse(text).value, tree))
  {
    var rest, saw := text, false;
    ghost var raws := ZigLines(text);
    ghost var lines := Map(ZigLine, raws);
    ghost var k: nat, es: seq<Listed> := 0, [];
    while rest != []
      invariant k <= |raws| && raws[k..] == ZigLines(rest)
      invariant Collect(lines[..k]) == Some(es) && (saw <==> es != []) && Agrees(es, tree)
      decreases |rest|
    {
      var raw := rest[..LineEnd(rest)];
      assert raws[k..] == [raw] + ZigLines(AfterLine(rest));
      assert raws[k] == raws[k..][0] && raws[k + 1..] == raws[k..][1..];
      rest := AfterLine(rest);
      CollectNext(lines, k);
      var line := ZigLine(raw);
      if line.Bad? { return false; }
      if line.Entry? {
        AgreesNext(es, line.of, tree);
        if line.of.0 !in tree || tree[line.of.0] != line.of.1 {
          if ZigParse(text).Some? && Agrees(ZigParse(text).value, tree) {
            PrefixAgrees(es + [line.of], Collect(lines).value, tree);
          }
          return false;
        }
        saw := true;
        es := es + [line.of];
      }
      k := k + 1;
    }
    assert lines[..k] == lines;
    return saw;
  }

  /* ---- one printer ---- */

  function PrintLine(e: Listed): string { e.1 + ("  ./" + e.0) }

  function PrintSums(es: seq<Listed>): string {
    if es == [] then "" else PrintLine(es[0]) + ("\n" + PrintSums(es[1..]))
  }

  /** Names a line can carry: nothing that breaks the line or is stripped. */
  predicate Clean(name: string) {
    name != "" && (forall c :: c in name ==> !PyBreak(c)) && !PySpace(name[|name| - 1])
  }

  lemma HexIsPlain(d: string)
    requires Hex64(d)
    ensures forall c :: c in d ==> !PySpace(c) && c != '#'
  {
  }

  lemma {:induction false} GapAfter(d: string, rest: string)
    requires ' ' !in d
    ensures Gap(d + ("  " + rest)) == Some(|d|)
  {
    var s := d + ("  " + rest);
    if d != [] {
      assert d[0] in d && s[1..] == d[1..] + ("  " + rest);
      GapAfter(d[1..], rest);
    }
  }

  /** sbom.py reads a printed line back exactly when its name is relative, has no
      `..` component and is not the list itself. */
  lemma PyReadsLine(e: Listed)
    requires Hex64(e.1) && Clean(e.0)
    ensures PyLine(PrintLine(e)) == if PyLegal(e.0) then Entry(e) else Bad
  {
    var line := PrintLine(e);
    HexIsPlain(e.1);
    assert e.1[0] in e.1 && line[0] == e.1[0] && line[|line| - 1] == e.0[|e.0| - 1];
    TrimKeeps(line, PySpace);
    assert line == e.1 + ("  " + ("./" + e.0));
    GapAfter(e.1, "./" + e.0);
    assert line[..64] == e.1 && line[66..] == "./" + e.0;
    assert ("./" + e.0)[2..] == e.0;
  }

  /** build.zig reads it back exactly when its name is relative, has no two dots
      in a row and does not end in a slash. */
  lemma ZigReadsLine(e: Listed)
    requires Hex64(e.1) && Clean(e.0)
    ensures ZigLine(PrintLine(e)) == if ZigLegal(e.0) then Entry(e) else Bad
  {
    var line := PrintLine(e);
    HexIsPlain(e.1);
    assert e.1[0] in e.1 && line[0] == e.1[0] && line[|line| - 1] == e.0[|e.0| - 1];
    TrimKeeps(line, ZigSpace);
    var name := "./" + e.0;
    assert line[..64] == e.1 && line[64..] == "  " + name + "";
    TrimDrops("  ", name, "", Blank);
    assert name[2..] == e.0;
  }

  lemma {:induction false} BreakAt(line: string, rest: string)
    requires forall c :: c in line ==> !PyBreak(c)
    ensures FirstBreak(line + ("\n" + rest)) == |line|
  {
    var s := line + ("\n" + rest);
    assert s[|line|] == '\n' && forall j :: 0 <= j < |line| ==> s[j] == line[j] && line[j] in line;
  }

  /** One printed line and the rest, for both readers. */
  lemma HeadLine(line: string, rest: string)
    requires forall c :: c in line ==> !PyBreak(c)
    ensures PyLines(line + ("\n" + rest)) == [line] + PyLines(rest)
    ensures ZigLines(line + ("\n" + rest)) == [line] + ZigLines(rest)
  {
    var s := line + ("\n" + rest);
    BreakAt(line, rest);
    assert '\n' !in line;
    FindSplit(line, '\n', rest);
    assert s == line + ['\n'] + rest;
    assert s[..|line|] == line && s[|line| + 1..] == rest && s[|line|] == '\n';
  }

  function Printed(es: seq<Listed>): seq<string> { if es == [] then [] else [PrintLine(es[0])] + Printed(es[1..]) }

  lemma {:induction false} PrintedLines(es: seq<Listed>)
    requires forall e :: e in es ==> Hex64(e.1) && Clean(e.0)
    ensures PyLines(PrintSums(es)) == ZigLines(PrintSums(es)) == Printed(es)
  {
    if es != [] {
      LineIsClean(es[0]);
      HeadLine(PrintLine(es[0]), PrintSums(es[1..]));
      PrintedLines(es[1..]);
    }
  }

  lemma {:induction false} PrintedAt(es: seq<Listed>)
    ensures |Printed(es)| == |es| && forall i :: 0 <= i < |es| ==> Printed(es)[i] == PrintLine(es[i])
  {
    if es != [] {
      PrintedAt(es[1..]);
      assert forall i :: 0 < i < |es| ==> es[i] == es[1..][i - 1] && Printed(es)[i] == Printed(es[1..])[i - 1];
    }
  }

  lemma LineIsClean(e: Listed)
    requires Hex64(e.1) && Clean(e.0)
    ensures forall c :: c in PrintLine(e) ==> !PyBreak(c)
    ensures '\n' !in PrintLine(e)
  {
    HexIsPlain(e.1);
    assert forall c :: c in "  ./" ==> !PyBreak(c);
  }

  lemma {:induction false} CollectEntries(lines: seq<Line>, es: seq<Listed>, ok: Listed -> bool)
    requires |lines| == |es| && forall i :: 0 <= i < |es| ==> lines[i] == if ok(es[i]) then Entry(es[i]) else Bad
    ensures Collect(lines) == if forall e :: e in es ==> ok(e) then Some(es) else None
    decreases |es|
  {
    if es != [] {
      var n := |es| - 1;
      CollectEntries(lines[..n], es[..n], ok);
      assert es == es[..n] + [es[n]];
    }
  }

  /** A printed list reads back as itself in sbom.py exactly when it is not empty,
      names each file once, and every name is one it accepts. */
  lemma SbomReadsBack(es: seq<Listed>)
    requires forall e :: e in es ==> Hex64(e.1) && Clean(e.0)
    ensures PyParse(PrintSums(es)) ==
      if es != [] && Distinct(es) && (forall e :: e in es ==> PyLegal(e.0)) then Some(es) else None
  {
    PrintedLines(es);
    PrintedAt(es);
    forall i | 0 <= i < |es| ensures PyLine(PrintLine(es[i])) == if PyLegal(es[i].0) then Entry(es[i]) else Bad {
      PyReadsLine(es[i]);
    }
    CollectEntries(Map(PyLine, Printed(es)), es, (e: Listed) => PyLegal(e.0));
  }

  /** ... and in build.zig exactly when it is not empty and every name is one that
      accepts; names may repeat. */
  lemma BuildReadsBack(es: seq<Listed>)
    requires forall e :: e in es ==> Hex64(e.1) && Clean(e.0)
    ensures ZigParse(PrintSums(es)) ==
      if es != [] && (forall e :: e in es ==> ZigLegal(e.0)) then Some(es) else None
  {
    PrintedLines(es);
    PrintedAt(es);
    forall i | 0 <= i < |es| ensures ZigLine(PrintLine(es[i])) == if ZigLegal(es[i].0) then Entry(es[i]) else Bad {
      ZigReadsLine(es[i]);
    }
    CollectEntries(Map(ZigLine, Printed(es)), es, (e: Listed) => ZigLegal(e.0));
  }

  /** A name one of them accepts and the other refuses. */
  lemma ReadersDisagree()
    ensures PyLegal("a..b") && !ZigLegal("a..b")
    ensures PyLegal("a/") && !ZigLegal("a/")
    ensures !PyLegal("SHA256SUMS") && ZigLegal("SHA256SUMS")
  {
    DottedName();
    SlashedName();
  }

  lemma DottedName()
    ensures PyLegal("a..b") && TwoDots("a..b")
  {
    PathGate.SplitAtSlash("a..b", "");
    assert "a..b"[1] == '.' == "a..b"[2];
    assert |"a..b"| == 4 && |".."| == 2;
  }

  lemma SlashedName()
    ensures PyLegal("a/")
  {
    PathGate.SplitAtSlash("a", "");
    PathGate.SplitEmpty();
    assert "a" + ("/" + "") == "a/";
    assert |"a"| == 1 && |""| == 0 && |".."| == 2;
  }
}
