/** What the lines of a SHA256SUMS file read as, for both readers of `Sums`, told by
    the text of the line. */
module SumsLines {
  import opened Pieces
  import opened Text
  import opened Sums

  /* ---- characters and line breaks ---- */

  lemma PySpaceIs(c: char)
    ensures PySpace(c) <==>
      c as int in {9, 10, 11, 12, 13, 28, 29, 30, 31, 32, 133, 160, 5760, 8192, 8193, 8194, 8195, 8196, 8197, 8198,
                   8199, 8200, 8201, 8202, 8232, 8233, 8239, 8287, 12288}
  {
  }

  /** What build.zig takes for a relative name: no slash at either end, no two dots in a
      row anywhere. */
  lemma ZigLegalIs(name: string)
    ensures ZigLegal(name) <==>
      && name != "" && name[0] != '/' && name[|name| - 1] != '/'
      && !exists a: string, b: string :: name == a + (".." + b)
  {
    if TwoDots(name) {
      var k :| 0 <= k < |name| - 1 && name[k] == '.' == name[k + 1];
      assert name == name[..k] + (".." + name[k + 2..]);
    }
    forall a: string, b: string | name == a + (".." + b) ensures TwoDots(name) {
      assert name[|a|] == '.' == name[|a| + 1];
    }
  }

  /** `splitlines`: a line ends at its first break; a carriage return and the line feed
      after it are one. */
  lemma PyLinesSplit(line: string, brk: string, rest: string)
    requires forall c :: c in line ==> !PyBreak(c)
    requires brk == "\r\n" || (|brk| == 1 && PyBreak(brk[0]) && !(brk == "\r" && rest != "" && rest[0] == '\n'))
    ensures PyLines(line + (brk + rest)) == [line] + PyLines(rest)
  {
    var s, k := line + (brk + rest), |line|;
    assert forall j :: 0 <= j < k ==> s[j] == line[j] && line[j] in line;
    assert s[k] == brk[0] && FirstBreak(s) == k;
    assert s[..k] == line && s[k + |brk|..] == rest;
    if |brk| == 2 {
      assert s[k + 1] == '\n';
    } else if rest != "" {
      assert s[k + 1] == rest[0];
    }
  }

  lemma PyLinesEnd(line: string)
    requires line != "" && forall c :: c in line ==> !PyBreak(c)
    ensures PyLines(line) == [line]
  {
    assert FirstBreak(line) == |line| && line[..|line|] == line && line[|line|..] == "";
  }

  /** build.zig breaks at a line feed and nowhere else. */
  lemma ZigLinesSplit(line: string, rest: string)
    requires '\n' !in line
    ensures ZigLines(line + ("\n" + rest)) == [line] + ZigLines(rest)
    ensures line != "" ==> ZigLines(line) == [line]
  {
    var s := line + ("\n" + rest);
    FindSplit(line, '\n', rest);
    assert s == line + ['\n'] + rest;
    assert s[..|line|] == line && s[|line| + 1..] == rest;
    assert line[..|line|] == line && Find(line, '\n') == None;
  }

  /* ---- lines without an entry ---- */

  /** Blanks, and then nothing or a comment. */
  predicate Quiet(raw: string, pre: string, drop: char -> bool) {
    All(pre, drop) && pre <= raw && (raw == pre || raw[|pre|] == '#')
  }

  lemma QuietIs(raw: string, pre: string, drop: char -> bool)
    requires Quiet(raw, pre, drop) && !drop('#')
    ensures Trim(raw, drop) == "" || Trim(raw, drop)[0] == '#'
  {
    var rest := raw[|pre|..];
    assert raw == pre + rest;
    TrimLeftDrops(pre, rest, drop);
    var post := TrimRightParts(rest, drop);
    if rest != "" {
      HeadStays(rest, drop);
    }
  }

  lemma {:induction false} HeadStays(s: string, drop: char -> bool)
    requires s != "" && !drop(s[0])
    ensures TrimRight(s, drop) != "" && TrimRight(s, drop)[0] == s[0]
  {
    if |s| > 1 && drop(s[|s| - 1]) {
      HeadStays(s[..|s| - 1], drop);
    }
  }

  lemma IsQuiet(raw: string, drop: char -> bool) returns (pre: string)
    requires Trim(raw, drop) == "" || Trim(raw, drop)[0] == '#'
    ensures Quiet(raw, pre, drop)
  {
    var post;
    pre, post := TrimParts(raw, drop);
    if Trim(raw, drop) == "" {
      AllJoin(pre, post, drop);
      assert raw == pre + post;
      pre := pre + post;
    }
  }

  /** A line adds nothing and refuses nothing exactly if it is blank or a comment. */
  lemma SkippedLines(raw: string)
    ensures PyLine(raw).Skip? <==> exists pre :: Quiet(raw, pre, PySpace)
    ensures ZigLine(raw).Skip? <==> exists pre :: Quiet(raw, pre, ZigSpace)
  {
    if PyLine(raw).Skip? { var pre := IsQuiet(raw, PySpace); }
    if ZigLine(raw).Skip? { var pre := IsQuiet(raw, ZigSpace); }
    forall pre | Quiet(raw, pre, PySpace) ensures PyLine(raw).Skip? { QuietIs(raw, pre, PySpace); }
    forall pre | Quiet(raw, pre, ZigSpace) ensures ZigLine(raw).Skip? { QuietIs(raw, pre, ZigSpace); }
  }

  /* ---- entries, as scripts/sbom.py reads them ---- */

  /** One `./` may come before a name. */
  predicate Dotted(dot: string, name: string) { dot == "./" || (dot == "" && !("./" <= name)) }

  lemma DropsDot(dot: string, name: string)
    requires Dotted(dot, name)
    ensures DropDotSlash(dot + name) == name
  {
    assert dot == "" ==> dot + name == name;
  }

  function DotOf(s: string): (dot: string)
    ensures s == dot + DropDotSlash(s) && (dot == "./" || (dot == "" && !("./" <= s)))
  {
    if "./" <= s then assert s[..2] == "./"; "./" else ""
  }

  /** Blanks, the digest, two spaces and the name. */
  predicate PyText(raw: string, pre: string, dot: string, e: Listed, post: string) {
    && raw == pre + ((e.1 + ("  " + (dot + e.0))) + post) && All(pre, PySpace) && All(post, PySpace)
    && Hex64(e.1) && Dotted(dot, e.0) && PyLegal(e.0) && !PySpace(e.0[|e.0| - 1])
  }

  lemma Ends(a: string, b: string, c: string)
    requires c != ""
    ensures (a + (b + c))[|a + (b + c)| - 1] == c[|c| - 1]
  {
  }

  lemma PyBody(dot: string, e: Listed)
    requires Hex64(e.1) && Dotted(dot, e.0) && PyLegal(e.0)
    ensures var line := e.1 + ("  " + (dot + e.0));
      && line != "" && line[0] == e.1[0] && line[0] != '#' && !PySpace(line[0])
      && line[|line| - 1] == e.0[|e.0| - 1]
      && Gap(line) == Some(64) && line[..64] == e.1 && line[66..] == dot + e.0
  {
    HexIsPlain(e.1);
    assert e.1[0] in e.1 && PySpace(' ');
    GapAfter(e.1, dot + e.0);
  }

  /** Such a line is that entry ... */
  lemma PyEntryReads(raw: string, pre: string, dot: string, e: Listed, post: string)
    requires PyText(raw, pre, dot, e, post)
    ensures PyLine(raw) == Entry(e)
  {
    var line := e.1 + ("  " + (dot + e.0));
    PyBody(dot, e);
    TrimIs(pre, line, post, PySpace);
    DropsDot(dot, e.0);
  }

  lemma {:induction false} GapIs(s: string)
    ensures Gap(s).Some? ==> Gap(s).value + 2 <= |s| && s[Gap(s).value..Gap(s).value + 2] == "  "
  {
    if |s| >= 2 && !(s[0] == ' ' && s[1] == ' ') {
      GapIs(s[1..]);
    }
  }

  lemma LineSplits(line: string, k: nat)
    requires k + 2 <= |line| && line[k..k + 2] == "  "
    ensures line == line[..k] + ("  " + line[k + 2..])
  {
  }

  /** ... and no other line is one. */
  lemma PyEntryIs(raw: string) returns (pre: string, dot: string, post: string)
    requires PyLine(raw).Entry?
    ensures PyText(raw, pre, dot, PyLine(raw).of, post)
  {
    var line := Trim(raw, PySpace);
    pre, post := TrimParts(raw, PySpace);
    var k := Gap(line).value;
    GapIs(line);
    LineSplits(line, k);
    dot := DotOf(line[k + 2..]);
    var e := PyLine(raw).of;
    Ends(e.1 + "  ", dot, e.0);
    assert line == e.1 + ("  " + (dot + e.0));
    assert line[|line| - 1] == e.0[|e.0| - 1];
    assert dot == "" ==> e.0 == line[k + 2..];
  }

  /* ---- entries, as build.zig reads them ---- */

  /** What may stand around digest and name: blanks at both ends, blanks before the name,
      a star with blanks after it, a `./`. */
  datatype Spelling = Spelling(pre: string, left: string, star: string, right: string, dot: string, post: string)

  function Lead(p: Spelling, name: string): string { p.star + (p.right + (p.dot + name)) }

  /** The text between digest and end of line gives this name. */
  predicate Spells(p: Spelling, name: string) {
    && All(p.left, Blank) && All(p.right, Blank) && Dotted(p.dot, name) && name != ""
    && (p.star == "*" || (p.star == "" && p.right == "" && (p.dot + name)[0] != '*'))
    && !Blank((p.dot + name)[0]) && !Blank(name[|name| - 1])
  }

  predicate ZigText(raw: string, p: Spelling, e: Listed) {
    && raw == p.pre + ((e.1 + (p.left + Lead(p, e.0))) + p.post) && All(p.pre, ZigSpace) && All(p.post, ZigSpace)
    && Hex64(e.1) && |p.left + Lead(p, e.0)| >= 2 && Spells(p, e.0) && ZigLegal(e.0) && !ZigSpace(e.0[|e.0| - 1])
  }

  lemma TrimLead(left: string, n: string, drop: char -> bool)
    requires All(left, drop) && n != "" && !drop(n[0]) && !drop(n[|n| - 1])
    ensures Trim(left + n, drop) == n
  {
    TrimIs(left, n, "", drop);
    assert left + (n + "") == left + n;
  }

  /** What is left of a text without its blanks, a star and the blanks after it. */
  function Unstarred(s: string, drop: char -> bool): string {
    var n := Trim(s, drop);
    if n != "" && n[0] == '*' then Trim(n[1..], drop) else n
  }

  lemma StarReads(left: string, star: string, right: string, full: string, drop: char -> bool)
    requires All(left, drop) && All(right, drop) && full != "" && !drop(full[0]) && !drop(full[|full| - 1])
    requires !drop('*') && (star == "*" || (star == "" && right == "" && full[0] != '*'))
    ensures Unstarred(left + (star + (right + full)), drop) == full
  {
    var n := star + (right + full);
    Ends(star, right, full);
    if star == "*" {
      TrimLead(left, n, drop);
      assert n[1..] == right + full;
      TrimLead(right, full, drop);
    } else {
      assert n == full;
      TrimLead(left, n, drop);
    }
  }

  lemma ZigNameIs(tail: string)
    ensures ZigName(tail) == DropDotSlash(Unstarred(tail, Blank))
  {
  }

  lemma ZigNameReads(p: Spelling, name: string)
    requires Spells(p, name)
    ensures ZigName(p.left + Lead(p, name)) == name
  {
    Ends("", p.dot, name);
    assert "" + (p.dot + name) == p.dot + name;
    StarReads(p.left, p.star, p.right, p.dot + name, Blank);
    ZigNameIs(p.left + Lead(p, name));
    DropsDot(p.dot, name);
  }

  /** Such a line is that entry ... */
  lemma ZigEntryReads(raw: string, p: Spelling, e: Listed)
    requires ZigText(raw, p, e)
    ensures ZigLine(raw) == Entry(e)
  {
    var tail := p.left + Lead(p, e.0);
    var line := e.1 + tail;
    HexIsPlain(e.1);
    assert e.1[0] in e.1 && line[0] == e.1[0];
    assert line == (e.1 + p.left + p.star + p.right) + (p.dot + e.0);
    Ends(e.1 + p.left + p.star + p.right, p.dot, e.0);
    TrimIs(p.pre, line, p.post, ZigSpace);
    assert line[..64] == e.1 && line[64..] == tail;
    ZigNameReads(p, e.0);
  }

  /** Trimming a text that ends in no blank takes nothing off its end. */
  lemma HeadOnly(s: string, drop: char -> bool) returns (pre: string)
    requires s != "" && !drop(s[|s| - 1])
    ensures s == pre + Trim(s, drop) && All(pre, drop)
    ensures Trim(s, drop) != "" && !drop(Trim(s, drop)[0]) && Trim(s, drop)[|Trim(s, drop)| - 1] == s[|s| - 1]
  {
    pre := TrimLeftParts(s, drop);
    LastStays(s, drop);
  }

  lemma {:induction false} LastStays(s: string, drop: char -> bool)
    requires s != "" && !drop(s[|s| - 1])
    ensures TrimLeft(s, drop) != "" && TrimLeft(s, drop)[|TrimLeft(s, drop)| - 1] == s[|s| - 1]
    ensures Trim(s, drop) == TrimLeft(s, drop)
  {
    if drop(s[0]) {
      LastStays(s[1..], drop);
    }
  }

  lemma StarParts(s: string, drop: char -> bool) returns (left: string, star: string, right: string)
    requires s != "" && !drop(s[|s| - 1]) && Unstarred(s, drop) != ""
    ensures var m := Unstarred(s, drop);
      && s == left + (star + (right + m)) && All(left, drop) && All(right, drop)
      && !drop(m[0]) && m[|m| - 1] == s[|s| - 1]
      && (star == "*" || (star == "" && right == "" && m[0] != '*'))
  {
    left := HeadOnly(s, drop);
    var n := Trim(s, drop);
    if n[0] == '*' {
      star := "*";
      assert n == "*" + n[1..];
      right := HeadOnly(n[1..], drop);
    } else {
      star, right := "", "";
      assert n == star + (right + n);
    }
  }

  /** The name begins where the text before it ends. */
  lemma NameParts(tail: string) returns (left: string, star: string, right: string, dot: string)
    requires tail != "" && !Blank(tail[|tail| - 1]) && ZigName(tail) != ""
    ensures var name := ZigName(tail);
      && tail == left + (star + (right + (dot + name))) && name[|name| - 1] == tail[|tail| - 1]
      && Spells(Spelling("", left, star, right, dot, ""), name)
  {
    ZigNameIs(tail);
    left, star, right := StarParts(tail, Blank);
    dot := DotOf(Unstarred(tail, Blank));
    SpellsIs(left, star, right, dot, ZigName(tail), Unstarred(tail, Blank));
  }

  lemma SpellsIs(left: string, star: string, right: string, dot: string, name: string, m: string)
    requires All(left, Blank) && All(right, Blank) && name != "" && m == dot + name
    requires dot == "./" || (dot == "" && !("./" <= m))
    requires !Blank(m[0]) && !Blank(m[|m| - 1]) && (star == "*" || (star == "" && right == "" && m[0] != '*'))
    ensures Spells(Spelling("", left, star, right, dot, ""), name) && name[|name| - 1] == m[|m| - 1]
  {
    assert dot == "" ==> m == name;
  }

  /** ... and no other line is one. */
  lemma ZigEntryIs(raw: string) returns (p: Spelling)
    requires ZigLine(raw).Entry?
    ensures ZigText(raw, p, ZigLine(raw).of)
  {
    var line, e := Trim(raw, ZigSpace), ZigLine(raw).of;
    var pre, post := TrimParts(raw, ZigSpace);
    var tail := line[64..];
    assert line == line[..64] + tail;
    var left, star, right, dot := NameParts(tail);
    p := Spelling(pre, left, star, right, dot, post);
    assert Spells(p, e.0);
  }
}
