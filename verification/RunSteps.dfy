/** What scripts/ci_run_steps.awk prints for a file, told by the text of its lines:
    which of them are steps, which block a line belongs to, and what is left of it. */
module RunSteps {
  import opened Pieces
  import opened Text
  import opened CiSteps

  /* ---- one line ---- */

  /** Blanks, the key, blanks and a value. */
  predicate Carries(line: string, pre: string, gap: string, value: string) {
    && line == pre + ("run:" + (gap + value)) && All(pre, Space) && All(gap, Space)
    && value != "" && !Space(value[0])
  }

  lemma KeyReads(pre: string, rest: string, drop: char -> bool)
    requires All(pre, drop) && !drop('r')
    ensures TrimLeft(pre + ("run:" + rest), drop) == "run:" + rest && ("run:" + rest)[4..] == rest
  {
    TrimLeftDrops(pre, "run:" + rest, drop);
  }

  /** Such a line is a step with that value ... */
  lemma StepReads(line: string, pre: string, gap: string, value: string)
    requires Carries(line, pre, gap, value)
    ensures IsStep(line) && CiSteps.Value(line) == value
  {
    KeyReads(pre, gap + value, Space);
    TrimLeftDrops(gap, value, Space);
  }

  lemma KeyParts(line: string, drop: char -> bool) returns (pre: string, gap: string)
    requires "run:" <= TrimLeft(line, drop)
    ensures var value := TrimLeft(TrimLeft(line, drop)[4..], drop);
      && line == pre + ("run:" + (gap + value)) && All(pre, drop) && All(gap, drop)
      && (value == "" || !drop(value[0]))
  {
    var rest := TrimLeft(line, drop);
    pre := TrimLeftParts(line, drop);
    gap := TrimLeftParts(rest[4..], drop);
    assert rest == "run:" + rest[4..];
  }

  /** ... and every step is one. */
  lemma StepIs(line: string) returns (pre: string, gap: string)
    requires IsStep(line)
    ensures Carries(line, pre, gap, CiSteps.Value(line))
  {
    pre, gap := KeyParts(line, Space);
  }

  predicate AtMostAQuote(q: string) { q == "" || (|q| == 1 && Quote(q[0])) }

  /** One quote at either end goes, and no more. */
  lemma UnquotedIs(v: string) returns (open: string, close: string)
    ensures AtMostAQuote(open) && AtMostAQuote(close) && v == open + (Unquoted(v) + close)
    ensures open == "" && v != "" ==> !Quote(v[0])
    ensures close == "" && Unquoted(v) != "" ==> !Quote(Unquoted(v)[|Unquoted(v)| - 1])
  {
    open, close := if v != "" && Quote(v[0]) then v[..1] else "", "";
    var a := v[|open|..];
    if a != "" && Quote(a[|a| - 1]) {
      close := a[|a| - 1..];
      assert a == a[..|a| - 1] + close;
    }
    assert v == open + a;
  }

  /** `|` or `>`, maybe a sign, and digits. */
  ghost predicate HeaderText(v: string) {
    exists c: char, sign: string, digits: string ::
      v == [c] + (sign + digits) && (c == '|' || c == '>') && sign in {"", "+", "-"} && Digits(digits)
  }

  lemma {:induction false} DigitsDrop(s: string)
    ensures DropDigits(s) == "" <==> Digits(s)
  {
    if s != "" && IsDigit(s[0]) {
      DigitsDrop(s[1..]);
      assert s == [s[0]] + s[1..];
    }
  }

  lemma HasHeaderText(v: string)
    requires IsHeader(v)
    ensures HeaderText(v)
  {
    var sign := if |v| > 1 && v[1] in "-+" then [v[1]] else "";
    var digits := v[1 + |sign|..];
    DigitsDrop(digits);
    assert sign in {"", "+", "-"};
    assert v == [v[0]] + (sign + digits);
  }

  lemma HeaderIs(v: string)
    ensures IsHeader(v) <==> HeaderText(v)
  {
    if IsHeader(v) {
      HasHeaderText(v);
    }
    if HeaderText(v) {
      var c, sign, digits :| v == [c] + (sign + digits) && (c == '|' || c == '>') && sign in {"", "+", "-"} &&
                             Digits(digits);
      DigitsDrop(digits);
      SignSplits(v, c, sign, digits);
      assert "|>"[0] == '|' && "|>"[1] == '>';
    }
  }

  lemma SignSplits(v: string, c: char, sign: string, digits: string)
    requires v == [c] + (sign + digits) && sign in {"", "+", "-"} && Digits(digits)
    ensures v != "" && v[0] == c && (if |v| > 1 && v[1] in "-+" then v[2..] else v[1..]) == digits
  {
    if sign == "" && digits != "" {
      assert v[1] == digits[0] && digits[0] in digits;
    }
  }

  /** The line starts with n spaces. */
  predicate Spaces(line: string, n: nat) { n <= |line| && forall i :: 0 <= i < n ==> line[i] == ' ' }

  lemma SpacesTail(line: string, n: nat)
    ensures Spaces(line, n + 1) <==> line != "" && line[0] == ' ' && Spaces(line[1..], n)
  {
    if line != "" && Spaces(line[1..], n) {
      assert forall i :: 0 < i < n + 1 ==> line[i] == line[1..][i - 1];
    }
  }

  /** A line is indented by more than n exactly if it starts with n + 1 spaces. */
  lemma {:induction false} IndentIs(line: string, n: nat)
    ensures Indent(line) > n <==> Spaces(line, n + 1)
  {
    SpacesTail(line, n);
    if line != "" && line[0] == ' ' && n > 0 {
      IndentIs(line[1..], n - 1);
    }
  }

  /* ---- a file ---- */

  predicate Opens(line: string) { IsStep(line) && IsHeader(Unquoted(CiSteps.Value(line))) }

  /** A line that keeps a block of this indentation open. */
  predicate Keeps(line: string, n: nat) { IsStep(line) || IsBlank(line) || Indent(line) > n }

  /** Line k belongs to the block that line h opens: no line between opens another, and
      each of them keeps a block of this indentation open. */
  predicate GovernsBy(lines: Lines, h: nat, k: nat, opens: string -> bool, keeps: (string, nat) -> bool,
                      depth: string -> nat)
  {
    && h < k <= |lines| && opens(lines[h])
    && forall j :: h < j < k ==> !opens(lines[j]) && keeps(lines[j], depth(lines[h]))
  }

  predicate Governs(lines: Lines, h: nat, k: nat) { GovernsBy(lines, h, k, Opens, Keeps, Indent) }

  function BodyLine(line: string, n: nat): Lines {
    if IsBlank(line) then [""] else if Indent(line) > n then [Gha(line[n..])] else []
  }

  /** What is printed for line k: a step gives a marker, and its command unless it opens
      a block; a line of a block is cut by the indentation of the line that opened it. */
  ghost predicate Prints(lines: Lines, k: nat, out: Lines)
    requires k < |lines|
  {
    var line := lines[k];
    if IsStep(line) then
      var v := Unquoted(CiSteps.Value(line));
      out == if IsHeader(v) || v == "" then [MARKER] else [MARKER, Gha(v)]
    else
      && (forall h: nat :: Governs(lines, h, k) ==> out == BodyLine(line, Indent(lines[h])))
      && ((forall h: nat :: !Governs(lines, h, k)) ==> out == [])
  }

  function StateBy(lines: Lines, k: nat, next: (State, string) -> State): State
    requires k <= |lines|
  {
    if k == 0 then Outside else next(StateBy(lines, k - 1, next), lines[k - 1])
  }

  /** How a line moves the state. */
  ghost predicate Moves(next: (State, string) -> State, opens: string -> bool, keeps: (string, nat) -> bool,
                        depth: string -> nat)
  {
    forall st, line {:trigger next(st, line)} ::
      && (opens(line) ==> next(st, line) == Inside(depth(line)))
      && (!opens(line) && st.Inside? && keeps(line, st.indent) ==> next(st, line) == st)
      && (!opens(line) && next(st, line).Inside? ==> next(st, line) == st && keeps(line, st.indent))
  }

  lemma {:induction false} GovernedIsInside(lines: Lines, h: nat, k: nat, next: (State, string) -> State,
      opens: string -> bool, keeps: (string, nat) -> bool, depth: string -> nat)
    requires Moves(next, opens, keeps, depth) && GovernsBy(lines, h, k, opens, keeps, depth)
    ensures StateBy(lines, k, next) == Inside(depth(lines[h]))
  {
    if h < k - 1 {
      GovernedIsInside(lines, h, k - 1, next, opens, keeps, depth);
    }
  }

  lemma {:induction false} InsideIsGoverned(lines: Lines, k: nat, next: (State, string) -> State,
      opens: string -> bool, keeps: (string, nat) -> bool, depth: string -> nat) returns (h: nat)
    requires k <= |lines| && Moves(next, opens, keeps, depth) && StateBy(lines, k, next).Inside?
    ensures GovernsBy(lines, h, k, opens, keeps, depth) && StateBy(lines, k, next) == Inside(depth(lines[h]))
  {
    if opens(lines[k - 1]) {
      h := k - 1;
    } else {
      h := InsideIsGoverned(lines, k - 1, next, opens, keeps, depth);
    }
  }

  function Next(st: State, line: string): State { Step(st, line).0 }

  lemma NextMoves()
    ensures Moves(Next, Opens, Keeps, Indent)
  {
    forall st, line {:trigger Next(st, line)}
      ensures Opens(line) ==> Next(st, line) == Inside(Indent(line))
      ensures !Opens(line) && st.Inside? && Keeps(line, st.indent) ==> Next(st, line) == st
      ensures !Opens(line) && Next(st, line).Inside? ==> Next(st, line) == st && Keeps(line, st.indent)
    {
    }
  }

  function StateAt(lines: Lines, k: nat): State
    requires k <= |lines|
  {
    StateBy(lines, k, Next)
  }

  function PartAt(lines: Lines, k: nat): Lines
    requires k < |lines|
  {
    Step(StateAt(lines, k), lines[k]).1
  }

  lemma StepPart(st: State, line: string)
    requires IsStep(line)
    ensures var v := Unquoted(CiSteps.Value(line));
      Step(st, line).1 == if IsHeader(v) || v == "" then [MARKER] else [MARKER, Gha(v)]
  {
  }

  lemma OtherPart(st: State, line: string)
    requires !IsStep(line)
    ensures Step(st, line).1 == if st.Inside? then BodyLine(line, st.indent) else []
  {
  }

  lemma PartPrints(lines: Lines, k: nat)
    requires k < |lines|
    ensures Prints(lines, k, PartAt(lines, k))
  {
    var st, line := StateAt(lines, k), lines[k];
    if IsStep(line) {
      StepPart(st, line);
    } else {
      OtherPart(st, line);
      NextMoves();
      forall h: nat | Governs(lines, h, k) ensures PartAt(lines, k) == BodyLine(line, Indent(lines[h])) {
        GovernedIsInside(lines, h, k, Next, Opens, Keeps, Indent);
      }
      if st.Inside? {
        var h := InsideIsGoverned(lines, k, Next, Opens, Keeps, Indent);
        assert Governs(lines, h, k);
      }
    }
  }

  /** The whole file: every line prints its own part, in order. */
  lemma ExtractPrints(lines: Lines) returns (parts: seq<Lines>)
    ensures |parts| == |lines| && Extract(lines) == Flat(parts)
    ensures forall k :: 0 <= k < |lines| ==> Prints(lines, k, parts[k])
  {
    parts := seq(|lines|, k requires 0 <= k < |lines| => PartAt(lines, k));
    Walk(lines, parts, 0);
    assert lines[0..] == lines && parts[0..] == parts;
    forall k | 0 <= k < |lines| ensures Prints(lines, k, parts[k]) {
      PartPrints(lines, k);
    }
  }

  lemma {:induction false} Walk(lines: Lines, parts: seq<Lines>, k: nat)
    requires k <= |lines| == |parts| && forall j :: 0 <= j < |lines| ==> parts[j] == PartAt(lines, j)
    ensures RunFrom(StateAt(lines, k), lines[k..]) == Flat(parts[k..])
    decreases |lines| - k
  {
    if k < |lines| {
      Walk(lines, parts, k + 1);
      assert lines[k..][0] == lines[k] && lines[k..][1..] == lines[k + 1..];
      assert parts[k..][0] == PartAt(lines, k) && parts[k..][1..] == parts[k + 1..];
    }
  }
}
