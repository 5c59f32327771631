/** The CHANGELOG gate of scripts/check.sh and the section extractor of
    scripts/release_notes.sh, on the lines of one file. */
module Changelog {
  import opened Pieces
  import opened Text

  /* ---- one heading ---- */

  const UNRELEASED: string := "## [Unreleased]"

  /** `'## ['*` after the exact Unreleased heading was tried. */
  predicate IsVersionLine(line: string) { "## [" <= line && line != UNRELEASED }

  function Before(s: string, c: char): string {
    match Find(s, c)
    case None => s
    case Some(k) => s[..k]
  }

  /** `${line#"## ["}`, then `%%]` and the rest. */
  function Name(line: string): string
    requires "## [" <= line
  {
    Before(line[4..], ']')
  }

  function Run(s: string, p: char -> bool): (k: nat)
    ensures k <= |s| && (forall j :: 0 <= j < k ==> p(s[j])) && (k < |s| ==> !p(s[k]))
  {
    if s == [] || !p(s[0]) then 0
    else
      var k := Run(s[1..], p);
      assert forall j :: 0 < j < k + 1 ==> s[j] == s[1..][j - 1];
      k + 1
  }

  predicate Word(c: char) { IsDigit(c) || 'A' <= c <= 'Z' || 'a' <= c <= 'z' || c == '.' }

  lemma WordIs(c: char)
    ensures var n := c as int; Word(c) <==> n == 46 || 48 <= n < 58 || 65 <= n < 91 || 97 <= n < 123
  {
  }

  /** `([-+][0-9A-Za-z.]+)*$`. */
  predicate Suffix(s: string) {
    s == "" || (s[0] in "-+" && Run(s[1..], Word) > 0 && Suffix(s[1 + Run(s[1..], Word)..]))
  }

  /** `n` dotted numbers and a suffix. */
  predicate Numbers(s: string, n: nat) {
    var k := Run(s, IsDigit);
    k > 0 && (if n <= 1 then Suffix(s[k..]) else k < |s| && s[k] == '.' && Numbers(s[k + 1..], n - 1))
  }

  predicate Semver(s: string) { Numbers(s, 3) }

  predicate Dated(s: string) {
    |s| == 10 && s[4] == '-' == s[7] && forall k :: 0 <= k < 10 && k != 4 && k != 7 ==> IsDigit(s[k])
  }

  function HeadingOf(v: string): string { "## [" + (v + "] - ") }

  /** A version heading the gate lets pass. */
  predicate GoodHeading(line: string)
    requires "## [" <= line
  {
    Semver(Name(line)) && |line| == |HeadingOf(Name(line))| + 10 && HeadingOf(Name(line)) <= line &&
    Dated(line[|HeadingOf(Name(line))|..])
  }

  /** A version heading by its parts: three numbers, suffixes, and a date. */
  datatype Heading = Heading(major: string, minor: string, patch: string, suffixes: seq<string>,
                             year: string, month: string, day: string)

  function Flat(parts: seq<string>): string { if parts == [] then "" else parts[0] + Flat(parts[1..]) }

  function VersionText(h: Heading): string {
    h.major + (['.'] + (h.minor + (['.'] + (h.patch + Flat(h.suffixes)))))
  }

  function DateText(h: Heading): string { h.year + (['-'] + (h.month + (['-'] + h.day))) }

  function HeadingText(h: Heading): string { HeadingOf(VersionText(h)) + DateText(h) }

  predicate Numeral(s: string) { s != "" && Digits(s) }

  /** A sign and at least one letter, digit or dot. */
  predicate SuffixPart(s: string) { |s| >= 2 && s[0] in "-+" && All(s[1..], Word) }

  predicate WellFormed(h: Heading) {
    && Numeral(h.major) && Numeral(h.minor) && Numeral(h.patch) && (forall p :: p in h.suffixes ==> SuffixPart(p))
    && Digits(h.year) && |h.year| == 4 && Digits(h.month) && |h.month| == 2 && Digits(h.day) && |h.day| == 2
  }

  lemma {:induction false} RunIs(a: string, b: string, p: char -> bool)
    requires All(a, p) && (b == "" || !p(b[0]))
    ensures Run(a + b, p) == |a|
  {
    var k := Run(a + b, p);
    assert forall j :: 0 <= j < |a| ==> (a + b)[j] == a[j] && a[j] in a;
    assert b != "" ==> (a + b)[|a|] == b[0];
  }

  lemma {:induction false} SuffixOf(parts: seq<string>)
    requires forall p :: p in parts ==> SuffixPart(p)
    ensures Suffix(Flat(parts)) && (Flat(parts) != "" ==> Flat(parts)[0] in "-+")
  {
    if parts != [] {
      var p, rest := parts[0], Flat(parts[1..]);
      assert p in parts;
      SuffixOf(parts[1..]);
      var s := p + rest;
      assert s[1..] == p[1..] + rest;
      RunIs(p[1..], rest, Word);
      assert s[1 + |p[1..]|..] == rest;
    }
  }

  lemma {:induction false} SuffixParts(s: string) returns (parts: seq<string>)
    requires Suffix(s)
    ensures Flat(parts) == s && forall p :: p in parts ==> SuffixPart(p)
    decreases |s|
  {
    if s == "" {
      parts := [];
    } else {
      var k := Run(s[1..], Word);
      var more := SuffixParts(s[1 + k..]);
      var p := s[..1 + k];
      assert p[1..] == s[1..][..k];
      parts := [p] + more;
      assert parts[1..] == more;
      assert s == p + s[1 + k..];
    }
  }

  lemma NumbersFirst(a: string, b: string, n: nat)
    requires n > 1
    ensures Numeral(a) && Numbers(b, n - 1) ==> Numbers(a + (['.'] + b), n)
  {
    if Numeral(a) && Numbers(b, n - 1) {
      var s := a + (['.'] + b);
      RunIs(a, ['.'] + b, IsDigit);
      assert s[|a|] == '.' && s[|a| + 1..] == b;
    }
  }

  lemma NumbersSplit(s: string, n: nat) returns (a: string, b: string)
    requires n > 1 && Numbers(s, n)
    ensures s == a + (['.'] + b) && Numeral(a) && Numbers(b, n - 1)
  {
    var k := Run(s, IsDigit);
    a, b := s[..k], s[k + 1..];
    assert s == s[..k] + ([s[k]] + s[k + 1..]);
    assert forall c :: c in a ==> IsDigit(c);
  }

  lemma LastNumber(patch: string, suffix: string)
    requires Numeral(patch) && Suffix(suffix) && (suffix != "" ==> suffix[0] in "-+")
    ensures Numbers(patch + suffix, 1)
  {
    RunIs(patch, suffix, IsDigit);
    assert (patch + suffix)[|patch|..] == suffix;
  }

  lemma SemverOfText(h: Heading)
    requires WellFormed(h)
    ensures Semver(VersionText(h))
  {
    SuffixOf(h.suffixes);
    LastNumber(h.patch, Flat(h.suffixes));
    NumbersFirst(h.minor, h.patch + Flat(h.suffixes), 2);
    NumbersFirst(h.major, h.minor + (['.'] + (h.patch + Flat(h.suffixes))), 3);
  }

  lemma TextOfSemver(v: string) returns (major: string, minor: string, patch: string, parts: seq<string>)
    requires Semver(v)
    ensures v == major + (['.'] + (minor + (['.'] + (patch + Flat(parts)))))
    ensures Numeral(major) && Numeral(minor) && Numeral(patch) && forall p :: p in parts ==> SuffixPart(p)
  {
    var b, c;
    major, b := NumbersSplit(v, 3);
    minor, c := NumbersSplit(b, 2);
    var k := Run(c, IsDigit);
    patch := c[..k];
    parts := SuffixParts(c[k..]);
    assert c == patch + c[k..];
    assert forall x :: x in patch ==> IsDigit(x);
  }

  lemma DateOfText(h: Heading)
    requires WellFormed(h)
    ensures Dated(DateText(h)) && |DateText(h)| == 10
  {
    var d := DateText(h);
    assert d[4] == '-' && d[7] == '-';
    assert forall k :: 0 <= k < 4 ==> d[k] == h.year[k];
    assert d[5] == h.month[0] && d[6] == h.month[1] && d[8] == h.day[0] && d[9] == h.day[1];
  }

  lemma TextOfDate(d: string)
    requires Dated(d)
    ensures d == d[..4] + (['-'] + (d[5..7] + (['-'] + d[8..])))
    ensures Digits(d[..4]) && Digits(d[5..7]) && Digits(d[8..])
  {
  }

  lemma NameOfText(v: string, rest: string)
    requires ']' !in v
    ensures "## [" <= HeadingOf(v) + rest && Name(HeadingOf(v) + rest) == v
  {
    var line := HeadingOf(v) + rest;
    assert line[4..] == v + [']'] + (" - " + rest);
    FindSplit(v, ']', " - " + rest);
    assert line[4..][..|v|] == v;
  }

  /** What the gate lets pass: exactly the headings of this form. */
  lemma GoodHeadingIs(line: string)
    requires "## [" <= line
    ensures GoodHeading(line) <==> exists h :: WellFormed(h) && line == HeadingText(h)
  {
    if GoodHeading(line) {
      var v := Name(line);
      var d := line[|HeadingOf(v)|..];
      var major, minor, patch, parts := TextOfSemver(v);
      TextOfDate(d);
      var h := Heading(major, minor, patch, parts, d[..4], d[5..7], d[8..]);
      assert line == HeadingOf(v) + d;
      assert WellFormed(h) && line == HeadingText(h);
    }
    if h :| WellFormed(h) && line == HeadingText(h) {
      var v := VersionText(h);
      SemverOfText(h);
      SemverHasNoBracket(v, 3);
      NameOfText(v, DateText(h));
      DateOfText(h);
      assert line[|HeadingOf(v)|..] == DateText(h);
    }
  }

  /* ---- comparing versions ---- */

  /** 64-bit shell arithmetic. */
  function Wrapped(n: nat): int {
    var low := n % 0x1_0000_0000_0000_0000;
    if low < 0x8000_0000_0000_0000 then low else low - 0x1_0000_0000_0000_0000
  }

  /** The one 64-bit number congruent to n. */
  lemma WrappedIs(n: nat, x: int)
    ensures x == Wrapped(n) <==>
            -0x8000_0000_0000_0000 <= x < 0x8000_0000_0000_0000 && (n - x) % 0x1_0000_0000_0000_0000 == 0
  {
  }

  function Num(s: string): int { if Digits(s) then Wrapped(Value(s)) else 0 }

  datatype Key = Key(major: int, minor: int, patch: int)

  function AfterDot(s: string): string {
    match Find(s, '.')
    case None => ""
    case Some(k) => s[k + 1..]
  }

  /** Suffix dropped, then `IFS=. read a1 a2 a3`. */
  function KeyOf(v: string): Key {
    var core := Before(Before(v, '+'), '-');
    Key(Num(Before(core, '.')), Num(Before(AfterDot(core), '.')), Num(Before(AfterDot(AfterDot(core)), '.')))
  }

  predicate Less(a: Key, b: Key) {
    a.major < b.major || (a.major == b.major && (a.minor < b.minor || (a.minor == b.minor && a.patch < b.patch)))
  }

  /** A pre-release or build suffix does not count: with its release it would be
      listed twice. */
  lemma SuffixIgnored(core: string, suffix: string)
    requires '+' !in core && '-' !in core && (suffix == "" || suffix[0] in "+-")
    ensures KeyOf(core + suffix) == KeyOf(core)
  {
    var v := core + suffix;
    var plus := Before(v, '+');
    assert plus == core || (core <= plus && plus[|core|] == '-') by {
      if suffix != "" && suffix[0] == '+' {
        FindSplit(core, '+', suffix[1..]);
        assert v == core + ['+'] + suffix[1..];
        assert v[..|core|] == core;
      } else if suffix != "" {
        assert v[|core|] == '-';
        assert forall j :: 0 <= j <= |core| ==> v[j] != '+';
      } else {
        assert v == core;
      }
    }
    CoreOf(core, plus);
    CoreOf(core, core);
    assert Before(core, '+') == core;
  }

  lemma CoreOf(core: string, s: string)
    requires '-' !in core && (s == core || (core <= s && |core| < |s| && s[|core|] == '-'))
    ensures Before(s, '-') == core
  {
    if s != core {
      assert s == core + ['-'] + s[|core| + 1..];
      FindSplit(core, '-', s[|core| + 1..]);
      assert s[..|core|] == core;
    }
  }

  /** `x.y.z`. */
  function Dotted(a: nat, b: nat, c: nat): string { Print(a) + (['.'] + (Print(b) + (['.'] + Print(c)))) }

  lemma DigitsLack(s: string, c: char)
    requires Digits(s) && !IsDigit(c)
    ensures c !in s
  {
  }

  lemma Parts(a: string, rest: string)
    requires '.' !in a
    ensures Before(a + (['.'] + rest), '.') == a && AfterDot(a + (['.'] + rest)) == rest
  {
    FindSplit(a, '.', rest);
    assert a + (['.'] + rest) == a + ['.'] + rest;
  }

  lemma Whole(s: string, c: char)
    requires c !in s
    ensures Before(s, c) == s
  {
  }

  lemma NumOfPrint(n: nat)
    requires n < 0x8000_0000_0000_0000
    ensures Num(Print(n)) == n && Digits(Print(n)) && '.' !in Print(n) && '+' !in Print(n) && '-' !in Print(n)
  {
    PrintValue(n);
    DigitsLack(Print(n), '.');
    DigitsLack(Print(n), '+');
    DigitsLack(Print(n), '-');
  }

  /** A plain version is read as its three numbers. */
  lemma KeyOfDotted(a: nat, b: nat, c: nat)
    requires a < 0x8000_0000_0000_0000 && b < 0x8000_0000_0000_0000 && c < 0x8000_0000_0000_0000
    ensures KeyOf(Dotted(a, b, c)) == Key(a, b, c)
  {
    NumOfPrint(a);
    NumOfPrint(b);
    NumOfPrint(c);
    var tail := Print(b) + (['.'] + Print(c));
    Parts(Print(a), tail);
    Parts(Print(b), Print(c));
    Whole(Print(c), '.');
    assert '+' !in Dotted(a, b, c) && '-' !in Dotted(a, b, c);
    Whole(Dotted(a, b, c), '+');
    Whole(Dotted(a, b, c), '-');
  }

  /** The comparison chain, whatever reads the numbers of a version. */
  method LessBy(v: string, w: string, key: string -> Key) returns (lt: nat)
    ensures lt == if Less(key(v), key(w)) then 0 else 1
  {
    var a, b := key(v), key(w);
    lt := 1;
    if a.major < b.major { lt := 0; return; }
    if a.major > b.major { return; }
    if a.minor < b.minor { lt := 0; return; }
    if a.minor > b.minor { return; }
    if a.patch < b.patch { lt := 0; return; }
  }

  /** `changelog_ver_lt_set`, on two version strings. */
  method VerLtSet(v: string, w: string) returns (lt: nat)
    ensures lt == if Less(KeyOf(v), KeyOf(w)) then 0 else 1
  {
    lt := LessBy(v, w, KeyOf);
  }

  /* ---- the gate ---- */

  /** The version lines, by position. */
  function Headings(lines: seq<string>): (hs: seq<nat>)
    ensures forall h: nat :: h in hs <==> h < |lines| && IsVersionLine(lines[h])
    ensures forall i, j :: 0 <= i < j < |hs| ==> hs[i] < hs[j]
  {
    if lines == [] then []
    else
      var n := |lines| - 1;
      var hs := Headings(lines[..n]);
      assert forall h: nat :: h < n ==> lines[..n][h] == lines[h];
      assert forall i :: 0 <= i < |hs| ==> hs[i] in hs;
      if IsVersionLine(lines[n]) then hs + [n] else hs
  }

  function Versions(lines: seq<string>): (vs: seq<string>)
    ensures |vs| == |Headings(lines)|
    ensures forall i :: 0 <= i < |vs| ==>
            Headings(lines)[i] in Headings(lines) && vs[i] == Name(lines[Headings(lines)[i]])
  {
    var hs := Headings(lines);
    seq(|hs|, i requires 0 <= i < |hs| && hs[i] in hs => Name(lines[hs[i]]))
  }

  predicate Falls(vs: seq<string>, key: string -> Key, i: nat)
    requires 0 < i < |vs|
  {
    Less(key(vs[i]), key(vs[i - 1]))
  }

  /** Each version is below the one before it. */
  predicate Descending(vs: seq<string>, key: string -> Key) {
    forall i {:trigger Falls(vs, key, i)} :: 0 < i < |vs| ==> Falls(vs, key, i)
  }

  /** Positions of the Unreleased heading. */
  predicate UnreleasedAt(lines: seq<string>, u: nat) { u < |lines| && lines[u] == UNRELEASED }

  /** Every version heading among the first k lines is well formed. */
  predicate Vetted(lines: seq<string>, k: nat)
    requires k <= |lines|
  {
    k == 0 || (Vetted(lines, k - 1) && (IsVersionLine(lines[k - 1]) ==> GoodHeading(lines[k - 1])))
  }

  lemma {:induction false} VettedAt(lines: seq<string>, k: nat, h: nat)
    requires h < k <= |lines| && Vetted(lines, k) && IsVersionLine(lines[h])
    ensures GoodHeading(lines[h])
  {
    if h < k - 1 {
      VettedAt(lines, k - 1, h);
    }
  }

  lemma {:induction false} NotVetted(lines: seq<string>, k: nat)
    requires k <= |lines| && !Vetted(lines, k)
    ensures !Vetted(lines, |lines|)
    decreases |lines| - k
  {
    if k < |lines| {
      NotVetted(lines, k + 1);
    }
  }

  /** What the gate demands of a file; `key` is how it reads a version, `KeyOf`. */
  ghost predicate Good(lines: seq<string>, zon: string, key: string -> Key) {
    && Vetted(lines, |lines|)
    && (exists u: nat :: UnreleasedAt(lines, u) && (forall w: nat :: UnreleasedAt(lines, w) ==> w == u) &&
                         forall h: nat :: h in Headings(lines) ==> u < h)
    && zon in Versions(lines)
    && Descending(Versions(lines), key)
  }

  lemma NextLine(lines: seq<string>, k: nat)
    requires k < |lines|
    ensures Headings(lines[..k + 1]) == Headings(lines[..k]) + if IsVersionLine(lines[k]) then [k] else []
    ensures Versions(lines[..k + 1]) == Versions(lines[..k]) + if IsVersionLine(lines[k]) then [Name(lines[k])] else []
  {
    assert lines[..k + 1][..k] == lines[..k];
  }

  /** The Unreleased heading among the first k lines, and whether it leads. */
  ghost predicate Seen(lines: seq<string>, k: nat, u: nat, saw: bool, leads: bool)
    requires k <= |lines|
  {
    && (saw ==> u < k && UnreleasedAt(lines, u))
    && (forall w: nat :: w < k && UnreleasedAt(lines, w) ==> saw && w == u)
    && (leads <==> saw && forall h: nat :: h in Headings(lines[..k]) ==> u < h)
  }

  lemma SeenUnreleased(lines: seq<string>, k: nat, u: nat, leads: bool)
    requires k < |lines| && Seen(lines, k, u, false, leads) && UnreleasedAt(lines, k)
    ensures Seen(lines, k + 1, k, true, Headings(lines[..k]) == [])
  {
    NextLine(lines, k);
    var hs := Headings(lines[..k]);
    if hs != [] {
      assert hs[0] in hs;
    }
  }

  lemma SeenOther(lines: seq<string>, k: nat, u: nat, saw: bool, leads: bool)
    requires k < |lines| && Seen(lines, k, u, saw, leads) && !UnreleasedAt(lines, k)
    ensures Seen(lines, k + 1, u, saw, leads)
  {
    NextLine(lines, k);
  }

  /** The loop's variables; `leads` is Unreleased being the first heading. */
  datatype Scan = Failed | Scan(saw: bool, leads: bool, any: bool, versions: seq<string>)

  function ScanLine(s: Scan, line: string): Scan
    requires s.Scan?
  {
    if line == UNRELEASED then (if s.saw then Failed else Scan(true, s.leads || !s.any, true, s.versions))
    else if !("## [" <= line) then s
    else if !GoodHeading(line) then Failed
    else s.(any := true, versions := s.versions + [Name(line)])
  }

  function ScanTo(lines: seq<string>, k: nat): Scan
    requires k <= |lines|
  {
    if k == 0 then Scan(false, false, false, [])
    else
      var s := ScanTo(lines, k - 1);
      if s.Failed? then Failed else ScanLine(s, lines[k - 1])
  }

  lemma {:induction false} FailsForGood(lines: seq<string>, k: nat)
    requires k <= |lines| && ScanTo(lines, k).Failed?
    ensures ScanTo(lines, |lines|).Failed?
    decreases |lines| - k
  {
    if k < |lines| {
      FailsForGood(lines, k + 1);
    }
  }

  /** What the variables mean after k lines. */
  ghost predicate Means(lines: seq<string>, k: nat, u: nat)
    requires k <= |lines|
  {
    match ScanTo(lines, k)
    case Failed =>
      !Vetted(lines, k) || exists v: nat, w: nat :: v != w && UnreleasedAt(lines, v) && UnreleasedAt(lines, w)
    case Scan(saw, leads, any, versions) =>
      && Vetted(lines, k) && versions == Versions(lines[..k])
      && (any <==> saw || versions != [])
      && Seen(lines, k, u, saw, leads)
  }

  lemma {:induction false} ScanMeans(lines: seq<string>, k: nat) returns (u: nat)
    requires k <= |lines|
    ensures Means(lines, k, u)
  {
    if k == 0 {
      u := 0;
      assert lines[..0] == [];
    } else {
      u := ScanMeans(lines, k - 1);
      u := NextMeans(lines, k - 1, u);
    }
  }

  lemma NextMeans(lines: seq<string>, k: nat, u: nat) returns (v: nat)
    requires k < |lines| && Means(lines, k, u)
    ensures Means(lines, k + 1, v)
  {
    NextLine(lines, k);
    v := u;
    var s := ScanTo(lines, k);
    if s.Scan? {
      if lines[k] == UNRELEASED {
        assert UnreleasedAt(lines, k);
        if !s.saw {
          SeenUnreleased(lines, k, u, s.leads);
          v := k;
        }
      } else {
        SeenOther(lines, k, u, s.saw, s.leads);
      }
    }
  }

  /** The scan of the headings. */
  method ScanHeadings(lines: seq<string>) returns (s: Scan)
    ensures s == ScanTo(lines, |lines|)
  {
    var saw, leads, any := false, false, false;
    var versions: seq<string> := [];
    for k := 0 to |lines|
      invariant Scan(saw, leads, any, versions) == ScanTo(lines, k)
    {
      if ScanTo(lines, k + 1).Failed? { FailsForGood(lines, k + 1); }
      if lines[k] == UNRELEASED {
        if !any { leads := true; }
        if saw { return Failed; }
        saw, any := true, true;
      } else if "## [" <= lines[k] {
        any := true;
        if !GoodHeading(lines[k]) { return Failed; }
        versions := versions + [Name(lines[k])];
      }
    }
    return Scan(saw, leads, any, versions);
  }

  /** The whole gate: the scan, the current version, and adjacent versions. */
  method CheckHeadings(lines: seq<string>, zon: string) returns (ok: bool)
    ensures ok <==> Good(lines, zon, KeyOf)
  {
    var s := ScanHeadings(lines);
    ghost var u := ScanMeans(lines, |lines|);
    assert lines[..|lines|] == lines;
    if s.Failed? || !s.saw || !s.leads || zon !in s.versions { return false; }
    assert UnreleasedAt(lines, u);
    ok := CheckOrder(s.versions, KeyOf);
  }

  method CheckOrder(versions: seq<string>, key: string -> Key) returns (ok: bool)
    ensures ok <==> Descending(versions, key)
  {
    var k := 1;
    while k < |versions|
      invariant 1 <= k
      invariant forall i {:trigger Falls(versions, key, i)} :: 0 < i < k && i < |versions| ==> Falls(versions, key, i)
    {
      var lt := LessBy(versions[k], versions[k - 1], key);
      if lt != 0 {
        assert !Falls(versions, key, k);
        return false;
      }
      assert Falls(versions, key, k);
      k := k + 1;
    }
    ok := true;
  }

  lemma LessTrans(a: Key, b: Key, c: Key)
    requires Less(a, b) && Less(b, c)
    ensures Less(a, c)
  {
  }

  lemma {:induction false} DescendingIsTotal(vs: seq<string>, key: string -> Key, i: nat, j: nat)
    requires Descending(vs, key) && i < j < |vs|
    ensures Less(key(vs[j]), key(vs[i]))
    decreases j
  {
    assert Falls(vs, key, j);
    if i + 1 < j {
      DescendingIsTotal(vs, key, i, j - 1);
      LessTrans(key(vs[j]), key(vs[j - 1]), key(vs[i]));
    }
  }

  /** In a file the gate accepts, of two listed versions the earlier is the
      greater, so no version is listed twice, not even with another suffix. */
  lemma VersionsAreOrdered(lines: seq<string>, zon: string, key: string -> Key, i: nat, j: nat)
    requires Good(lines, zon, key) && i < j < |Versions(lines)|
    ensures Less(key(Versions(lines)[j]), key(Versions(lines)[i])) && Versions(lines)[i] != Versions(lines)[j]
  {
    DescendingIsTotal(Versions(lines), key, i, j);
  }

  /* ---- one version's notes ---- */

  predicate Opens(lines: seq<string>, h: nat, v: string) { h < |lines| && HeadingOf(v) <= lines[h] }

  /** First `## ` line at or after k. */
  function NextH2(lines: seq<string>, k: nat): (e: nat)
    requires k <= |lines|
    ensures k <= e <= |lines| && (e < |lines| ==> "## " <= lines[e])
    ensures forall j :: k <= j < e ==> !("## " <= lines[j])
    decreases |lines| - k
  {
    if k == |lines| || "## " <= lines[k] then k else NextH2(lines, k + 1)
  }

  /** The awk pass: `found` opens at the heading and the next `## ` line ends it. */
  method Notes(lines: seq<string>, v: string) returns (out: seq<string>)
    ensures (forall h: nat :: !Opens(lines, h, v)) ==> out == []
    ensures forall h: nat :: Opens(lines, h, v) && (forall g: nat :: Opens(lines, g, v) ==> g == h) ==>
              out == lines[h + 1..NextH2(lines, h + 1)]
  {
    out := [];
    var found := false;
    ghost var at: nat := 0;
    var k := 0;
    while k < |lines|
      invariant k <= |lines|
      invariant !found ==> out == [] && forall g: nat :: g < k ==> !Opens(lines, g, v)
      invariant found ==> at < k && Opens(lines, at, v)
      invariant found && (forall g: nat :: Opens(lines, g, v) ==> g == at) ==>
                  out == lines[at + 1..k] && forall j :: at < j < k ==> !("## " <= lines[j])
    {
      if HeadingOf(v) <= lines[k] {
        assert Opens(lines, k, v);
        if !found { at := k; }
        found := true;
      } else if found && "## " <= lines[k] {
        break;
      } else if found {
        out := out + [lines[k]];
      }
      k := k + 1;
    }
    if found {
      EndIs(lines, at + 1, k);
    }
  }

  predicate AllWhite(lines: seq<string>) { forall l :: l in lines ==> All(l, Space) }

  /** Command substitution drops the newlines the output ends with. */
  function DropEmptyEnd(lines: seq<string>): (r: seq<string>)
    ensures r <= lines && (r != [] ==> r[|r| - 1] != "")
    ensures forall j :: |r| <= j < |lines| ==> lines[j] == ""
  {
    if lines != [] && lines[|lines| - 1] == "" then DropEmptyEnd(lines[..|lines| - 1]) else lines
  }

  lemma EmptyEndIsWhite(lines: seq<string>)
    ensures AllWhite(DropEmptyEnd(lines)) <==> AllWhite(lines)
  {
    var r := DropEmptyEnd(lines);
    forall l | l in r ensures l in lines {
      var j :| 0 <= j < |r| && r[j] == l;
      assert lines[j] == l;
    }
    forall l | l in lines ensures l in r || l == "" {
      var j :| 0 <= j < |lines| && lines[j] == l;
      assert j < |r| ==> r[j] == l;
    }
  }

  /** The script: a section of nothing but white space is a failure, otherwise it
      is printed without the empty lines at its end. */
  method ReleaseNotes(lines: seq<string>, v: string) returns (r: Option<seq<string>>)
    ensures (forall h: nat :: !Opens(lines, h, v)) ==> r.None?
    ensures forall h: nat :: Opens(lines, h, v) && (forall g: nat :: Opens(lines, g, v) ==> g == h) ==>
      var body := lines[h + 1..NextH2(lines, h + 1)];
      && (r.None? <==> AllWhite(body))
      && (r.Some? ==> r.value <= body && r.value != [] && r.value[|r.value| - 1] != "" &&
                      forall j :: |r.value| <= j < |body| ==> body[j] == "")
  {
    var all := Notes(lines, v);
    var out := DropEmptyEnd(all);
    EmptyEndIsWhite(all);
    if AllWhite(out) { return None; }
    return Some(out);
  }

  lemma EndIs(lines: seq<string>, k: nat, e: nat)
    requires k <= e <= |lines| && (e < |lines| ==> "## " <= lines[e])
    ensures (forall j :: k <= j < e ==> !("## " <= lines[j])) ==> NextH2(lines, k) == e
  {
  }

  lemma RunLacks(s: string, p: char -> bool, c: char)
    requires !p(c) && c !in s[Run(s, p)..]
    ensures c !in s
  {
    var k := Run(s, p);
    assert forall j :: k <= j < |s| ==> s[j] == s[k..][j - k];
  }

  lemma TailLacks(s: string, k: nat, c: char)
    requires k < |s| && s[k] != c && c !in s[k + 1..]
    ensures c !in s[k..]
  {
    assert s[k..] == [s[k]] + s[k + 1..];
  }

  lemma {:induction false} SemverHasNoBracket(s: string, n: nat)
    requires Numbers(s, n)
    ensures ']' !in s
    decreases |s|, 1
  {
    var k := Run(s, IsDigit);
    if n <= 1 {
      SuffixHasNoBracket(s[k..]);
    } else {
      SemverHasNoBracket(s[k + 1..], n - 1);
      TailLacks(s, k, ']');
    }
    RunLacks(s, IsDigit, ']');
  }

  lemma {:induction false} SuffixHasNoBracket(s: string)
    requires Suffix(s)
    ensures ']' !in s
    decreases |s|
  {
    if s != "" {
      var t, k := s[1..], Run(s[1..], Word);
      SuffixHasNoBracket(s[1 + k..]);
      assert t[k..] == s[1 + k..];
      RunLacks(t, Word, ']');
      assert s == [s[0]] + t;
    }
  }

  lemma NameOfHeading(v: string, line: string)
    requires ']' !in v && HeadingOf(v) <= line
    ensures IsVersionLine(line) && Name(line) == v
  {
    var rest := line[|HeadingOf(v)|..];
    assert line == HeadingOf(v) + rest;
    assert line[4..] == v + [']'] + (" - " + rest);
    FindSplit(v, ']', " - " + rest);
    assert UNRELEASED[4..] == "Unreleased" + [']'] + "";
    FindSplit("Unreleased", ']', "");
  }

  lemma OpensIsHeading(lines: seq<string>, zon: string, key: string -> Key, v: string, g: nat)
    requires Good(lines, zon, key) && v in Versions(lines) && Opens(lines, g, v)
    ensures g in Headings(lines) && Name(lines[g]) == v
  {
    var i :| 0 <= i < |Versions(lines)| && Versions(lines)[i] == v;
    var h := Headings(lines)[i];
    assert h in Headings(lines);
    VettedAt(lines, |lines|, h);
    SemverHasNoBracket(v, 3);
    NameOfHeading(v, lines[g]);
  }

  /** Every version of an accepted file has one heading, and its notes are the
      lines from there to the next `## ` line. */
  lemma OneHeadingPerVersion(lines: seq<string>, zon: string, key: string -> Key, i: nat, g: nat)
    requires Good(lines, zon, key) && i < |Versions(lines)|
    ensures var v, h := Versions(lines)[i], Headings(lines)[i];
      h < |lines| && Opens(lines, h, v) && (Opens(lines, g, v) ==> g == h)
  {
    var hs, vs := Headings(lines), Versions(lines);
    assert hs[i] in hs;
    VettedAt(lines, |lines|, hs[i]);
    if Opens(lines, g, vs[i]) {
      OpensIsHeading(lines, zon, key, vs[i], g);
      var j :| 0 <= j < |hs| && hs[j] == g;
      if i < j {
        VersionsAreOrdered(lines, zon, key, i, j);
      } else if j < i {
        VersionsAreOrdered(lines, zon, key, j, i);
      }
    }
  }

  lemma VersionLineIsH2(line: string)
    requires IsVersionLine(line)
    ensures "## " <= line
  {
    assert "## [" <= line && "## "[..] == "## ["[..3];
  }

  /** The lines from a version heading's successor to the next `## ` line, its
      notes, hold no heading and no line of another version's notes. */
  lemma SectionsAreDisjoint(lines: seq<string>, a: nat, b: nat, k: nat)
    requires a in Headings(lines) && b in Headings(lines) && a != b
    requires a < k < NextH2(lines, a + 1)
    ensures !(b <= k < NextH2(lines, b + 1)) && !("## " <= lines[k])
  {
    VersionLineIsH2(lines[a]);
    VersionLineIsH2(lines[b]);
    BetweenHeadings(lines, a, b, k);
  }

  lemma BetweenHeadings(lines: seq<string>, a: nat, b: nat, k: nat)
    requires a < |lines| && b < |lines| && a != b && "## " <= lines[a] && "## " <= lines[b]
    requires a < k < NextH2(lines, a + 1)
    ensures !(b <= k < NextH2(lines, b + 1)) && !("## " <= lines[k])
  {
  }

  /** Together: the extractor's output for a listed version of an accepted file. */
  lemma NotesAreTheSection(lines: seq<string>, zon: string, key: string -> Key, i: nat)
    requires Good(lines, zon, key) && i < |Versions(lines)|
    ensures Headings(lines)[i] < |lines|
    ensures forall g: nat :: Opens(lines, g, Versions(lines)[i]) <==> g == Headings(lines)[i]
  {
    assert Headings(lines)[i] in Headings(lines);
    forall g: nat ensures Opens(lines, g, Versions(lines)[i]) <==> g == Headings(lines)[i] {
      OneHeadingPerVersion(lines, zon, key, i, g);
    }
  }
}
