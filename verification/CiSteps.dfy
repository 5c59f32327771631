/** The `run:` step extractor scripts/ci_run_steps.awk, and the count gate of
    scripts/check.sh that guards it. A file is its lines. */
module CiSteps {
  import opened Pieces
  import opened Text

  type Lines = seq<string>

  /* ---- placeholders ---- */

  const GHA: string := "GHA_EXPR"

  /** Length of the match of `\$\{\{[^}]*\}\}` at the head of s, 0 for none. */
  function MatchLen(s: string): (n: nat)
    ensures n == 0 || (5 <= n <= |s| && s[0] == '$')
  {
    if !("${{" <= s) then 0
    else
      match Find(s[3..], '}')
      case None => 0
      case Some(k) => if 3 + k + 1 < |s| && s[3 + k + 1] == '}' then 3 + k + 2 else 0
  }

  /** `gsub`: leftmost matches, each replaced. */
  function Gha(s: string): string
    decreases |s|
  {
    if s == "" then ""
    else if MatchLen(s) > 0 then GHA + Gha(s[MatchLen(s)..])
    else [s[0]] + Gha(s[1..])
  }

  ghost predicate Clean(s: string) { forall i :: 0 <= i <= |s| ==> MatchLen(s[i..]) == 0 }

  lemma {:induction false} CleanStays(s: string)
    requires Clean(s)
    ensures Gha(s) == s
    decreases |s|
  {
    if s != "" {
      assert s[0..] == s;
      forall i | 0 <= i <= |s[1..]| ensures MatchLen(s[1..][i..]) == 0 { assert s[1..][i..] == s[i + 1..]; }
      CleanStays(s[1..]);
      assert [s[0]] + s[1..] == s;
    }
  }

  /** First position of a closing brace, or the end. */
  function Brace(s: string): (k: nat)
    ensures k <= |s| && '}' !in s[..k] && (k < |s| ==> s[k] == '}')
    ensures k == |s| <==> '}' !in s
  {
    match Find(s, '}')
    case None => assert s[..|s|] == s; |s|
    case Some(k) => k
  }

  /** Only the first brace, and what follows it, decide whether s opens a match. */
  lemma MatchByBrace(s: string)
    ensures MatchLen(s) > 0 <==> "${{" <= s && Brace(s) + 1 < |s| && s[Brace(s) + 1] == '}'
    ensures MatchLen(s) > 0 ==> MatchLen(s) == Brace(s) + 2
  {
    if "${{" <= s {
      var t := s[3..];
      assert s[0] == '$' && s[1] == '{' && s[2] == '{';
      match Find(t, '}') {
        case None =>
          assert s == s[..3] + t;
        case Some(k) =>
          assert s[..3 + k] == s[..3] + t[..k] && s[3 + k] == '}';
          FindUnique(s, '}', 3 + k);
      }
    }
  }

  lemma BraceOfTail(s: string)
    requires s != "" && Brace(s) > 0
    ensures Brace(s[1..]) == Brace(s) - 1
  {
    var t, k := s[1..], Brace(s);
    assert t[..k - 1] == s[..k][1..];
    if k < |s| {
      FindUnique(t, '}', k - 1);
    }
  }

  lemma HeadIsCopied(s: string)
    requires s != "" && MatchLen(s) == 0
    ensures Gha(s) == [s[0]] + Gha(s[1..])
  {
  }

  lemma CopiesOneMore(s: string, rest: string, m: nat)
    requires 0 < m <= |s| && s[1..][..m - 1] <= rest
    ensures var g := [s[0]] + rest; s[..m] <= g && (|g| > m ==> g[m] == rest[m - 1])
  {
    assert s[..m] == [s[0]] + s[1..][..m - 1];
  }

  /** A head that opens no match up to its first brace is copied through it, and
      what comes next is no brace unless it was one. */
  lemma {:induction false} CopiedThroughBrace(s: string)
    requires Brace(s) + 1 >= |s| || s[Brace(s) + 1] != '}'
    ensures var k := Min(Brace(s) + 1, |s|); s[..k] <= Gha(s) && (|Gha(s)| > k ==> Gha(s)[k] != '}')
    decreases |s|
  {
    var k, g := Brace(s), Gha(s);
    MatchByBrace(s);
    if s != "" {
      if k == 0 {
        AfterHead(s[1..]);
      } else {
        var t := s[1..];
        BraceOfTail(s);
        CopiedThroughBrace(t);
        var m := Min(k + 1, |s|);
        assert Min(Brace(t) + 1, |t|) == m - 1;
        HeadIsCopied(s);
        CopiesOneMore(s, Gha(t), m);
      }
    }
  }

  /** Rewriting puts no brace at the front. */
  lemma AfterHead(s: string)
    requires s == "" || s[0] != '}'
    ensures Gha(s) == "" || Gha(s)[0] != '}'
  {
  }

  lemma {:induction false} NoBraceCopies(s: string)
    requires '}' !in s
    ensures Gha(s) == s
    decreases |s|
  {
    if s != "" {
      MatchByBrace(s);
      NoBraceCopies(s[1..]);
      assert [s[0]] + s[1..] == s;
    }
  }

  /** A head that opens no match opens none after the rest was rewritten. */
  lemma HeadStaysClean(s: string)
    requires s != "" && MatchLen(s) == 0
    ensures MatchLen(Gha(s)) == 0
  {
    var g := Gha(s);
    if '}' !in s {
      NoBraceCopies(s);
    } else if "${{" <= g {
      OpensBefore(s);
      MatchByBrace(s);
      CopiedThroughBrace(s);
      SameBrace(s, g);
      MatchByBrace(g);
    }
  }

  lemma SameBrace(s: string, g: string)
    requires '}' in s && s[..Min(Brace(s) + 1, |s|)] <= g
    ensures Brace(g) == Brace(s) < |s|
  {
    var k := Brace(s);
    assert s[..k + 1][k] == '}' && g[..k + 1] == s[..k + 1];
    assert g[..k] == s[..k];
    FindUnique(g, '}', k);
  }

  lemma CurlyHead(s: string)
    requires Gha(s) != "" && Gha(s)[0] == '{'
    ensures s != "" && s[0] == '{' && Gha(s) == ['{'] + Gha(s[1..])
  {
  }

  /** Rewriting the rest does not complete an opening. */
  lemma OpensBefore(s: string)
    requires s != "" && MatchLen(s) == 0 && "${{" <= Gha(s)
    ensures "${{" <= s
  {
    var g := Gha(s);
    assert g[0] == '$' && g[1] == '{' && g[2] == '{';
    var t := s[1..];
    assert g == [s[0]] + Gha(t);
    assert Gha(t)[0] == '{' && Gha(t)[1] == '{';
    CurlyHead(t);
    CurlyHead(t[1..]);
    assert s[0] == '$' && s[1] == '{' && s[2] == '{';
  }

  /** The output holds no placeholder ... */
  lemma {:induction false} GhaLeavesNone(s: string)
    ensures Clean(Gha(s))
    decreases |s|
  {
    var g := Gha(s);
    if s == "" {
    } else if MatchLen(s) > 0 {
      var t := Gha(s[MatchLen(s)..]);
      GhaLeavesNone(s[MatchLen(s)..]);
      forall i | 0 <= i <= |g| ensures MatchLen(g[i..]) == 0 {
        if i < |GHA| {
          assert g[i..][0] == GHA[i];
        } else {
          assert g[i..] == t[i - |GHA|..];
        }
      }
    } else {
      GhaLeavesNone(s[1..]);
      HeadStaysClean(s);
      forall i | 0 <= i <= |g| ensures MatchLen(g[i..]) == 0 {
        if i == 0 { assert g[0..] == g; } else { assert g[i..] == Gha(s[1..])[i - 1..]; }
      }
    }
  }

  /** ... so rewriting twice is rewriting once. */
  lemma GhaIdempotent(s: string)
    ensures Gha(Gha(s)) == Gha(s)
  {
    GhaLeavesNone(s);
    CleanStays(Gha(s));
  }

  /* ---- what is rewritten ---- */

  /** `${{ x }}` with no brace in x. */
  function Placeholder(x: string): string { "${{" + (x + "}}") }

  /** A placeholder begins at i. */
  ghost predicate HoldsAt(s: string, i: nat) { i <= |s| && exists x :: '}' !in x && Placeholder(x) <= s[i..] }

  lemma MatchesPlaceholder(x: string, rest: string)
    requires '}' !in x
    ensures MatchLen(Placeholder(x) + rest) == |Placeholder(x)|
  {
    var s := Placeholder(x) + rest;
    assert s[3..] == x + ['}'] + ("}" + rest);
    FindSplit(x, '}', "}" + rest);
    assert s[3 + |x| + 1] == '}';
  }

  /** The pattern matches at the head exactly if a placeholder begins there. */
  lemma MatchIsPlaceholder(s: string)
    ensures MatchLen(s) > 0 <==> HoldsAt(s, 0)
  {
    assert s[0..] == s;
    if MatchLen(s) > 0 {
      var k := Find(s[3..], '}').value;
      var x := s[3..][..k];
      assert Placeholder(x) <= s;
    }
    if HoldsAt(s, 0) {
      var x :| '}' !in x && Placeholder(x) <= s[0..];
      assert s == Placeholder(x) + s[|Placeholder(x)|..];
      MatchesPlaceholder(x, s[|Placeholder(x)|..]);
    }
  }

  /** What comes before the first match is copied. */
  lemma {:induction false} GhaSkips(s: string, k: nat)
    requires k <= |s| && forall i :: 0 <= i < k ==> MatchLen(s[i..]) == 0
    ensures Gha(s) == s[..k] + Gha(s[k..])
    decreases |s|
  {
    if k == 0 {
      assert s[0..] == s;
    } else {
      var t := s[1..];
      assert s[0..] == s;
      HeadIsCopied(s);
      forall i | 0 <= i < k - 1 ensures MatchLen(t[i..]) == 0 {
        assert t[i..] == s[i + 1..];
      }
      GhaSkips(t, k - 1);
      Regrouped(s, k, Gha(s[k..]));
    }
  }

  lemma Regrouped(s: string, k: nat, rest: string)
    requires 0 < k <= |s|
    ensures s[1..][k - 1..] == s[k..] && [s[0]] + (s[1..][..k - 1] + rest) == s[..k] + rest
  {
    assert [s[0]] + s[1..][..k - 1] == s[..k];
  }

  lemma NoneBefore(s: string, k: nat)
    requires k <= |s| && forall i: nat :: i < k ==> !HoldsAt(s, i)
    ensures forall i :: 0 <= i < k ==> MatchLen(s[i..]) == 0
  {
    forall i: nat | i < k ensures MatchLen(s[i..]) == 0 {
      NoneAt(s, i);
    }
  }

  lemma NoneAt(s: string, i: nat)
    requires i <= |s| && !HoldsAt(s, i)
    ensures MatchLen(s[i..]) == 0
  {
    assert s[i..][0..] == s[i..];
    MatchIsPlaceholder(s[i..]);
  }

  /** The leftmost placeholder is replaced, the text before it is kept, and the rest is
      rewritten as if it stood alone. */
  lemma GhaReplaces(a: string, x: string, b: string)
    requires '}' !in x && forall i: nat :: i < |a| ==> !HoldsAt(a + (Placeholder(x) + b), i)
    ensures Gha(a + (Placeholder(x) + b)) == a + (GHA + Gha(b))
  {
    var t := Placeholder(x) + b;
    NoneBefore(a + t, |a|);
    GhaSkips(a + t, |a|);
    assert (a + t)[..|a|] == a && (a + t)[|a|..] == t;
    MatchesPlaceholder(x, b);
    assert t[|Placeholder(x)|..] == b;
  }

  /** Text without a placeholder stays as it is. */
  lemma GhaKeeps(s: string)
    requires forall i: nat :: !HoldsAt(s, i)
    ensures Gha(s) == s
  {
    NoneBefore(s, |s|);
    GhaSkips(s, |s|);
    assert s[..|s|] + Gha(s[|s|..]) == s;
  }

  /* ---- lines ---- */

  const MARKER: string := "# modelfs-ci-run-step"

  predicate IsBlank(line: string) { All(line, Space) }

  /** `/^[[:space:]]*run:/`, the lines the gate counts. */
  predicate IsRun(line: string) { "run:" <= TrimLeft(line, Space) }

  /** What follows the key and its blanks; empty for a bare `run:`. */
  function Value(line: string): string
    requires IsRun(line)
  {
    TrimLeft(TrimLeft(line, Space)[4..], Space)
  }

  predicate Quote(c: char) { c == '"' || c == '\'' }

  /** One quote off either end. */
  function Unquoted(v: string): string {
    var a := if v != "" && Quote(v[0]) then v[1..] else v;
    if a != "" && Quote(a[|a| - 1]) then a[..|a| - 1] else a
  }

  function DropDigits(s: string): string { if s != "" && IsDigit(s[0]) then DropDigits(s[1..]) else s }

  /** `/^[|>][-+]?[0-9]*$/`: a block scalar header. */
  predicate IsHeader(v: string) {
    v != "" && v[0] in "|>" && DropDigits(if |v| > 1 && v[1] in "-+" then v[2..] else v[1..]) == ""
  }

  /** Leading spaces: `match($0, /[^ ]/) - 1` of a line with another character. */
  function Indent(line: string): (n: nat)
    ensures n <= |line| && forall k :: 0 <= k < n ==> line[k] == ' '
  {
    if line == "" || line[0] != ' ' then 0
    else
      var n := Indent(line[1..]);
      assert forall k :: 0 < k < n + 1 ==> line[k] == line[1..][k - 1];
      n + 1
  }

  /* ---- the state machine ---- */

  datatype State = Outside | Inside(indent: nat)

  function Step(st: State, line: string): (State, Lines) {
    if IsRun(line) && Value(line) != "" then
      var v := Unquoted(Value(line));
      if IsHeader(v) then (Inside(Indent(line)), [MARKER])
      else (st, [MARKER] + if v != "" then [Gha(v)] else [])
    else
      match st
      case Outside => (st, [])
      case Inside(n) =>
        if IsBlank(line) then (st, [""])
        else if Indent(line) > n then (st, [Gha(line[n..])])
        else (Outside, [])
  }

  /** One file, from the state it starts in. */
  function RunFrom(st: State, lines: Lines): Lines
    decreases |lines|
  {
    if lines == [] then [] else Step(st, lines[0]).1 + RunFrom(Step(st, lines[0]).0, lines[1..])
  }

  function Extract(file: Lines): Lines { RunFrom(Outside, file) }

  function ExtractAll(files: seq<Lines>): Lines {
    if files == [] then [] else Extract(files[0]) + ExtractAll(files[1..])
  }

  /** One file, in whatever state the last one left the variables: `FNR == 1`
      closes the block before the first line is seen. */
  method AwkFile(file: Lines, inblock0: bool, ind0: nat) returns (out: Lines, inblock: bool, ind: nat)
    ensures out == Extract(file)
  {
    out, inblock, ind := [], inblock0, ind0;
    ghost var st := Outside;
    for k := 0 to |file|
      invariant k == 0 ==> st == Outside
      invariant k > 0 ==> st == if inblock then Inside(ind) else Outside
      invariant out + RunFrom(st, file[k..]) == Extract(file)
    {
      if k == 0 { inblock := false; }
      var line := file[k];
      assert file[k..][0] == line && file[k..][1..] == file[k + 1..];
      ghost var was := out;
      if IsRun(line) && Value(line) != "" {
        var v := Unquoted(Value(line));
        out := out + [MARKER];
        if IsHeader(v) {
          ind, inblock := Indent(line), true;
        } else if v != "" {
          out := out + [Gha(v)];
        }
      } else if inblock {
        if IsBlank(line) {
          out := out + [""];
        } else if Indent(line) > ind {
          out := out + [Gha(line[ind..])];
        } else {
          inblock := false;
        }
      }
      assert out == was + Step(st, line).1;
      Shift(was, Step(st, line).1, RunFrom(Step(st, line).0, file[k + 1..]));
      st := Step(st, line).0;
    }
  }

  lemma Shift(a: Lines, b: Lines, c: Lines)
    ensures a + b + c == a + (b + c)
  {
  }

  /** awk over several files: the block variables live on from one to the next. */
  method Awk(files: seq<Lines>) returns (out: Lines)
    ensures out == ExtractAll(files)
  {
    out := [];
    var inblock, ind: nat := false, 0;
    for f := 0 to |files|
      invariant out + ExtractAll(files[f..]) == ExtractAll(files)
    {
      var one;
      one, inblock, ind := AwkFile(files[f], inblock, ind);
      assert files[f..][0] == files[f] && files[f..][1..] == files[f + 1..];
      Shift(out, one, ExtractAll(files[f + 1..]));
      out := out + one;
    }
    assert files[|files|..] == [];
  }

  /** Extracting a list of files is extracting each and putting them together. */
  lemma {:induction false} FilesAreIndependent(a: seq<Lines>, b: seq<Lines>)
    ensures ExtractAll(a + b) == ExtractAll(a) + ExtractAll(b)
  {
    if a == [] {
      assert a + b == b;
    } else {
      assert (a + b)[1..] == a[1..] + b;
      FilesAreIndependent(a[1..], b);
    }
  }

  /* ---- the count gate ---- */

  function Count(lines: Lines, p: string -> bool): nat {
    if lines == [] then 0 else (if p(lines[0]) then 1 else 0) + Count(lines[1..], p)
  }

  lemma {:induction false} CountJoins(a: Lines, b: Lines, p: string -> bool)
    ensures Count(a + b, p) == Count(a, p) + Count(b, p)
  {
    if a == [] {
      assert a + b == b;
    } else {
      assert (a + b)[1..] == a[1..] + b;
      CountJoins(a[1..], b, p);
    }
  }

  predicate IsMarker(line: string) { line == MARKER }

  /** A `run:` line that carries a value. */
  predicate IsStep(line: string) { IsRun(line) && Value(line) != "" }

  /** ... whose inline value prints as the marker itself. */
  predicate IsForged(line: string) {
    IsStep(line) && !IsHeader(Unquoted(Value(line))) && Gha(Unquoted(Value(line))) == MARKER
  }

  /** A body line keeps a leading space, so it is never taken for a marker. */
  lemma BodyIsNoMarker(line: string, n: nat)
    requires Indent(line) > n
    ensures Gha(line[n..]) != "" && Gha(line[n..])[0] == ' '
  {
    assert line[n] == ' ' && line[n..][0] == ' ';
  }

  lemma StepCount(st: State, line: string)
    ensures Count(Step(st, line).1, IsMarker) == (if IsStep(line) then 1 else 0) + (if IsForged(line) then 1 else 0)
  {
    var out := Step(st, line).1;
    if IsStep(line) {
      var v := Unquoted(Value(line));
      if v == "" { assert Gha(v) == ""; }
      if !IsHeader(v) && v != "" {
        assert out == [MARKER] + [Gha(v)];
        CountJoins([MARKER], [Gha(v)], IsMarker);
      }
    } else if st.Inside? && !IsBlank(line) && Indent(line) > st.indent {
      BodyIsNoMarker(line, st.indent);
    }
  }

  lemma {:induction false} FileCount(st: State, lines: Lines)
    ensures Count(RunFrom(st, lines), IsMarker) == Count(lines, IsStep) + Count(lines, IsForged)
    decreases |lines|
  {
    if lines != [] {
      StepCount(st, lines[0]);
      FileCount(Step(st, lines[0]).0, lines[1..]);
      CountJoins(Step(st, lines[0]).1, RunFrom(Step(st, lines[0]).0, lines[1..]), IsMarker);
    }
  }

  function Flat(files: seq<Lines>): Lines { if files == [] then [] else files[0] + Flat(files[1..]) }

  lemma {:induction false} MarkerCount(files: seq<Lines>)
    ensures Count(ExtractAll(files), IsMarker) == Count(Flat(files), IsStep) + Count(Flat(files), IsForged)
  {
    if files != [] {
      MarkerCount(files[1..]);
      FileCount(Outside, files[0]);
      CountJoins(Extract(files[0]), ExtractAll(files[1..]), IsMarker);
      CountJoins(files[0], Flat(files[1..]), IsStep);
      CountJoins(files[0], Flat(files[1..]), IsForged);
    }
  }

  /** Bare `run:` keys. */
  predicate IsBare(line: string) { IsRun(line) && Value(line) == "" }

  lemma {:induction false} RunsAreStepsAndBare(lines: Lines)
    ensures Count(lines, IsRun) == Count(lines, IsStep) + Count(lines, IsBare)
  {
    if lines != [] {
      RunsAreStepsAndBare(lines[1..]);
    }
  }

  lemma {:induction false} CountZero(lines: Lines, p: string -> bool)
    ensures Count(lines, p) == 0 <==> forall l :: l in lines ==> !p(l)
  {
    if lines != [] {
      CountZero(lines[1..], p);
      assert lines == [lines[0]] + lines[1..];
    }
  }

  /** The gate of scripts/check.sh on the extractor's output. */
  predicate GatePasses(files: seq<Lines>) {
    Count(Flat(files), IsRun) > 0 && Count(ExtractAll(files), IsMarker) == Count(Flat(files), IsRun)
  }

  /** It passes exactly when there are steps and every forged marker is outweighed
      by a bare key: one hides the other. */
  lemma GateCounts(files: seq<Lines>)
    ensures GatePasses(files) <==>
            Count(Flat(files), IsRun) > 0 && Count(Flat(files), IsForged) == Count(Flat(files), IsBare)
  {
    MarkerCount(files);
    RunsAreStepsAndBare(Flat(files));
  }

  /** With no inline value that prints as the marker, it passes exactly when every
      `run:` line carries a value. */
  lemma GateIsExact(files: seq<Lines>)
    requires forall l :: l in Flat(files) ==> !IsForged(l)
    ensures GatePasses(files) <==>
            Count(Flat(files), IsRun) > 0 && forall l :: l in Flat(files) && IsRun(l) ==> Value(l) != ""
  {
    GateCounts(files);
    CountZero(Flat(files), IsForged);
    CountZero(Flat(files), IsBare);
  }
}
