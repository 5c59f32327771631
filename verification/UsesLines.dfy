/** What a line of a workflow file reads as: the law behind `Sbom.ActionLine`, stated
    on the text of the line. */
module UsesLines {
  import opened Pieces
  import opened Text
  import opened PathGate
  import opened Sums
  import opened Sbom

  /** A `uses:` line: blanks, maybe the dash of a list item, the key, a reference, and
      blanks or a comment behind it. */
  datatype Line = Line(pre: string, dash: Option<string>, gap: string, spec: string, tail: string)

  function Lead(dash: Option<string>): string {
    match dash
    case None => "uses:"
    case Some(mid) => "- " + (mid + "uses:")
  }

  function TextOf(l: Line): string { l.pre + (Lead(l.dash) + (l.gap + (l.spec + l.tail))) }

  predicate Blanks(s: string) { All(s, PySpace) }

  predicate Laid(l: Line) {
    && Blanks(l.pre) && (l.dash.Some? ==> Blanks(l.dash.value)) && Blanks(l.gap)
    && Clear(l.spec, PySpace) && '#' !in l.spec && Blanks(Before(l.tail, '#'))
  }

  /** `owner/repo[/path]@<commit>`. */
  predicate Names(spec: string, p: Pin) { Pinned(p) && spec == p.name + (['@'] + p.digest) }

  /* ---- references ---- */

  lemma SlugIs(c: char)
    ensures var n := c as int;
      Slug(c) <==> n == 45 || n == 46 || n == 95 || 48 <= n < 58 || 65 <= n < 91 || 97 <= n < 123
  {
  }

  function Slashed(parts: seq<string>): string
    requires parts != []
  {
    if |parts| == 1 then parts[0] else parts[0] + ("/" + Slashed(parts[1..]))
  }

  predicate Word(s: string) { s != "" && forall c :: c in s ==> Slug(c) }

  lemma {:induction false} SlashedSplits(parts: seq<string>)
    requires parts != [] && forall p :: p in parts ==> '/' !in p
    ensures Split(Slashed(parts)) == parts
  {
    assert parts[0] in parts;
    if |parts| == 1 {
      SplitAtSlash(parts[0], "");
    } else {
      SlashedSplits(parts[1..]);
      SplitAtSlash(parts[0], Slashed(parts[1..]));
    }
  }

  lemma {:induction false} SplitSlashes(s: string)
    ensures Slashed(Split(s)) == s
    decreases |s|
  {
    match Find(s, '/')
    case None =>
    case Some(k) =>
      SplitSlashes(s[k + 1..]);
      assert Split(s)[1..] == Split(s[k + 1..]);
      assert s == s[..k] + ("/" + s[k + 1..]);
  }

  predicate HexText(s: string) { forall c :: c in s ==> c in "0123456789abcdef" }

  lemma HexTextIs(s: string)
    ensures HexText(s) <==> All(s, LowerHex)
  {
    forall c ensures LowerHex(c) <==> c in "0123456789abcdef" {
    }
  }

  /** A name of at least two parts, and 40 or 64 lower-case hexadecimal digits. */
  predicate PinText(p: Pin, parts: seq<string>) {
    && |parts| >= 2 && p.name == Slashed(parts) && (forall w :: w in parts ==> Word(w))
    && (|p.digest| == 40 || |p.digest| == 64) && HexText(p.digest)
  }

  lemma PinnedHasText(p: Pin)
    requires Pinned(p)
    ensures PinText(p, Split(p.name))
  {
    SplitSlashes(p.name);
    HexTextIs(p.digest);
  }

  lemma TextIsPinned(p: Pin, parts: seq<string>)
    requires PinText(p, parts)
    ensures Pinned(p)
  {
    HexTextIs(p.digest);
    forall w | w in parts ensures '/' !in w {
      assert Word(w) && !Slug('/');
    }
    SlashedSplits(parts);
  }

  /** What is pinned. */
  lemma PinnedIs(p: Pin)
    ensures Pinned(p) <==> exists parts :: PinText(p, parts)
  {
    if Pinned(p) {
      PinnedHasText(p);
    }
    if parts :| PinText(p, parts) {
      TextIsPinned(p, parts);
    }
  }

  /* ---- stripping, of any kind of blank ---- */

  lemma {:induction false} TrimRightKeeps(a: string, t: string, drop: char -> bool)
    requires a != "" && !drop(a[|a| - 1])
    ensures TrimRight(a + t, drop) == a + TrimRight(t, drop)
    decreases |t|
  {
    if t == "" {
      assert a + t == a;
    } else if drop(t[|t| - 1]) {
      assert (a + t)[..|a + t| - 1] == a + t[..|t| - 1];
      TrimRightKeeps(a, t[..|t| - 1], drop);
    }
  }

  lemma BeforeJoins(a: string, b: string)
    requires '#' !in a
    ensures Before(a + b, '#') == a + Before(b, '#')
  {
    match Find(b, '#')
    case None =>
    case Some(k) =>
      assert (a + b)[..|a| + k] == a + b[..k];
      FindUnique(a + b, '#', |a| + k);
  }

  lemma BeforeStops(a: string, b: string)
    requires '#' in a
    ensures Before(a + b, '#') == Before(a, '#')
  {
    var k := Find(a, '#').value;
    assert (a + b)[..k] == a[..k];
    FindUnique(a + b, '#', k);
  }

  lemma LacksHash(s: string, drop: char -> bool)
    requires All(s, drop) && !drop('#')
    ensures '#' !in s && Before(s, '#') == s
  {
  }

  lemma Regroup(a: string, b: string, c: string, d: string)
    ensures (a + (b + c)) + d == a + (b + (c + d)) && a + (b + (c + d)) == (a + b) + (c + d)
  {
  }

  /** Text with blanks behind is trimmed like the text. */
  lemma TrimSame(pre: string, w: string, post: string, drop: char -> bool)
    requires All(pre, drop) && All(post, drop)
    ensures Trim(pre + (w + post), drop) == Trim(w, drop)
  {
    var a, b := TrimParts(w, drop);
    Padded(pre, a, Trim(w, drop), b, post, drop);
  }

  lemma Padded(pre: string, a: string, s: string, b: string, post: string, drop: char -> bool)
    requires All(pre, drop) && All(a, drop) && All(b, drop) && All(post, drop) && Clear(s, drop)
    ensures Trim(pre + ((a + (s + b)) + post), drop) == s
  {
    AllJoin(pre, a, drop);
    AllJoin(b, post, drop);
    Regroup(a, s, b, post);
    Regroup(pre, a, s, b + post);
    TrimIs(pre + a, s, b + post, drop);
  }

  /** Blanks around the text do not move what lies before its `#`. */
  lemma TrimBefore(pre: string, z: string, post: string, drop: char -> bool)
    requires All(pre, drop) && All(post, drop) && !drop('#')
    ensures Trim(Before(pre + (z + post), '#'), drop) == Trim(Before(z, '#'), drop)
  {
    LacksHash(pre, drop);
    LacksHash(post, drop);
    BeforeJoins(pre, z + post);
    if '#' in z {
      BeforeStops(z, post);
      TrimSame(pre, Before(z, '#'), "", drop);
      assert Before(z, '#') + "" == Before(z, '#');
    } else {
      BeforeJoins(z, post);
      TrimSame(pre, z, post, drop);
    }
  }

  lemma TrimmedBefore(rest: string, drop: char -> bool)
    requires !drop('#')
    ensures Trim(Before(Trim(TrimRight(rest, drop), drop), '#'), drop) == Trim(Before(rest, '#'), drop)
  {
    var x := TrimRight(rest, drop);
    var post := TrimRightParts(rest, drop);
    var a, b := TrimParts(x, drop);
    TrimmedOf(a, Trim(x, drop), b, post, drop);
  }

  lemma TrimmedOf(a: string, z: string, b: string, post: string, drop: char -> bool)
    requires All(a, drop) && All(b, drop) && All(post, drop) && !drop('#')
    ensures Trim(Before((a + (z + b)) + post, '#'), drop) == Trim(Before(z, '#'), drop)
  {
    AllJoin(b, post, drop);
    Regroup(a, z, b, post);
    TrimBefore(a, z, b + post, drop);
  }

  lemma LeftOut(y: string) returns (w: string, z: string)
    ensures w == Before(y, '#') && y == w + z && '#' !in w && (z == "" || z[0] == '#')
  {
    w := Before(y, '#');
    z := y[|w|..];
  }

  lemma TailBefore(d: string, z: string, post: string, drop: char -> bool)
    requires All(d, drop) && All(post, drop) && !drop('#') && (z == "" || z[0] == '#')
    ensures All(Before(d + (z + post), '#'), drop)
  {
    LacksHash(d, drop);
    LacksHash(post, drop);
    BeforeJoins(d, z + post);
    if z != "" {
      FindUnique(z + post, '#', 0);
      assert Before(z + post, '#') == "";
      assert d + "" == d;
    } else {
      assert z + post == post;
      AllJoin(d, post, drop);
    }
  }

  lemma PartOf(c: string, s: string, d: string)
    requires '#' !in c + (s + d)
    ensures '#' !in s
  {
    forall k | 0 <= k < |s| ensures s[k] != '#' {
      assert (c + (s + d))[|c| + k] == s[k];
    }
  }

  lemma RegroupAll(a: string, c: string, s: string, d: string, z: string, b: string, post: string)
    ensures (a + (((c + (s + d)) + z) + b)) + post == (a + c) + (s + (d + (z + (b + post))))
  {
  }

  lemma RestOf(rest: string, post: string, drop: char -> bool) returns (gap: string, spec: string, tail: string)
    requires All(post, drop) && !drop('#')
    ensures rest + post == gap + (spec + tail) && spec == Trim(Before(Trim(rest, drop), '#'), drop)
    ensures All(gap, drop) && Clear(spec, drop) && '#' !in spec && All(Before(tail, '#'), drop)
  {
    var a, b := TrimParts(rest, drop);
    var w, z := LeftOut(Trim(rest, drop));
    var c, d := TrimParts(w, drop);
    gap, spec, tail := a + c, Trim(w, drop), d + (z + (b + post));
    PartOf(c, spec, d);
    AllJoin(a, c, drop);
    AllJoin(b, post, drop);
    TailBefore(d, z, b + post, drop);
    RegroupAll(a, c, spec, d, z, b, post);
  }

  /* ---- one line ---- */

  /** `ActionLine` once the key was found, on the text behind it. */
  function Behind(rest: string): Ref {
    var spec := Strip(Before(Strip(rest), '#'));
    if "./" <= spec then NoRef else ParseSpec(spec)
  }

  lemma LeadEnds(dash: Option<string>)
    ensures Lead(dash) != "" && !PySpace(Lead(dash)[0]) && Lead(dash)[0] != '#'
    ensures !PySpace(Lead(dash)[|Lead(dash)| - 1])
  {
    assert !PySpace('u') && !PySpace('-') && !PySpace(':');
  }

  lemma LeadReads(dash: Option<string>, rest: string)
    requires dash.Some? ==> Blanks(dash.value)
    ensures var s := Lead(dash) + rest; var t := if "- " <= s then TrimLeft(s[2..], PySpace) else s;
      "uses:" <= t && t[5..] == rest
  {
    var s := Lead(dash) + rest;
    match dash
    case None => assert s[0] == 'u';
    case Some(mid) =>
      assert s[2..] == mid + ("uses:" + rest);
      assert !PySpace('u');
      TrimLeftDrops(mid, "uses:" + rest, PySpace);
  }

  lemma LineReads(pre: string, dash: Option<string>, rest: string)
    requires Blanks(pre) && (dash.Some? ==> Blanks(dash.value))
    ensures ActionLine(pre + (Lead(dash) + rest)) == Behind(TrimRight(rest, PySpace))
  {
    LeadEnds(dash);
    TrimLeftDrops(pre, Lead(dash) + rest, PySpace);
    TrimRightKeeps(Lead(dash), rest, PySpace);
    LeadReads(dash, TrimRight(rest, PySpace));
  }

  lemma HashIsNoBlank()
    ensures !PySpace('#')
  {
  }

  lemma BehindIs(gap: string, spec: string, tail: string)
    requires Blanks(gap) && Clear(spec, PySpace) && '#' !in spec && Blanks(Before(tail, '#'))
    ensures Behind(TrimRight(gap + (spec + tail), PySpace)) == if "./" <= spec then NoRef else ParseSpec(spec)
  {
    HashIsNoBlank();
    TrimmedBefore(gap + (spec + tail), PySpace);
    LacksHash(gap, PySpace);
    BeforeJoins(spec, tail);
    BeforeJoins(gap, spec + tail);
    TrimIs(gap, spec, Before(tail, '#'), PySpace);
  }

  lemma SpecReads(spec: string)
    ensures forall p :: Names(spec, p) ==> ParseSpec(spec) == Use(p)
    ensures (forall p :: !Names(spec, p)) ==> ParseSpec(spec).BadRef?
  {
    forall p | Names(spec, p) ensures ParseSpec(spec) == Use(p) {
      SlugsHaveNoAt(p.name);
      FindSplit(p.name, '@', p.digest);
      assert spec == p.name + ['@'] + p.digest;
      assert spec[..|p.name|] == p.name && spec[|p.name| + 1..] == p.digest;
    }
    match Find(spec, '@')
    case None =>
    case Some(k) =>
      var q := Pin(spec[..k], spec[k + 1..]);
      assert spec == q.name + (['@'] + q.digest);
      assert Pinned(q) ==> Names(spec, q);
  }

  /** A `uses:` line, however it is laid out and whatever comment it carries: a local
      reference adds nothing, one with owner, repository and a full commit is that pin,
      and anything else is refused. */
  lemma UsesLineReads(l: Line)
    requires Laid(l)
    ensures "./" <= l.spec ==> ActionLine(TextOf(l)).NoRef?
    ensures forall p :: Names(l.spec, p) && !("./" <= l.spec) ==> ActionLine(TextOf(l)) == Use(p)
    ensures !("./" <= l.spec) && (forall p :: !Names(l.spec, p)) ==> ActionLine(TextOf(l)).BadRef?
  {
    LineReads(l.pre, l.dash, l.gap + (l.spec + l.tail));
    BehindIs(l.gap, l.spec, l.tail);
    SpecReads(l.spec);
  }

  /** Only such lines, and none with a local reference, add or refuse anything. */
  lemma OtherLinesAreSilent(raw: string)
    requires !ActionLine(raw).NoRef?
    ensures exists l :: Laid(l) && TextOf(l) == raw && !("./" <= l.spec)
  {
    var pre, post := TrimParts(raw, PySpace);
    var dash, rest := LeadOf(Strip(raw));
    BehindLead(raw, rest);
    var l := LineOf(pre, dash, rest, post);
  }

  lemma BehindLead(raw: string, rest: string)
    requires !ActionLine(raw).NoRef? && rest == Keyed(Strip(raw))[5..]
    ensures !("./" <= Strip(Before(Strip(rest), '#')))
  {
  }

  lemma LineOf(pre: string, dash: Option<string>, rest: string, post: string) returns (l: Line)
    requires Blanks(pre) && Blanks(post) && (dash.Some? ==> Blanks(dash.value))
    ensures Laid(l) && TextOf(l) == pre + ((Lead(dash) + rest) + post) && l.spec == Strip(Before(Strip(rest), '#'))
  {
    HashIsNoBlank();
    var gap, spec, tail := RestOf(rest, post, PySpace);
    l := Line(pre, dash, gap, spec, tail);
    assert (Lead(dash) + rest) + post == Lead(dash) + (rest + post);
  }

  /** What `ActionLine` looks at once the line is stripped. */
  function Keyed(s: string): string { if "- " <= s then TrimLeft(s[2..], PySpace) else s }

  lemma LeadOf(s: string) returns (dash: Option<string>, rest: string)
    requires "uses:" <= Keyed(s)
    ensures s == Lead(dash) + rest && rest == Keyed(s)[5..] && (dash.Some? ==> Blanks(dash.value))
  {
    rest := Keyed(s)[5..];
    assert Keyed(s) == "uses:" + rest;
    if "- " <= s {
      var mid := TrimLeftParts(s[2..], PySpace);
      dash := Some(mid);
      assert s == "- " + (mid + ("uses:" + rest));
      assert s == Lead(dash) + rest;
    } else {
      dash := None;
    }
  }

  /** Some line of the file reads as this. */
  ghost predicate SomeLine(raws: seq<string>, ref: Ref) { exists raw :: raw in raws && ActionLine(raw) == ref }

  lemma SomeLineNext(init: seq<string>, last: string, ref: Ref)
    ensures SomeLine(init + [last], ref) <==> SomeLine(init, ref) || ActionLine(last) == ref
  {
    if SomeLine(init, ref) {
      var raw :| raw in init && ActionLine(raw) == ref;
      assert raw in init + [last];
    }
    assert last in init + [last];
  }

  lemma PinsLast(init: seq<string>, last: string)
    ensures Pins(init + [last]) ==
      match (Pins(init), ActionLine(last))
      case (None, _) => None
      case (_, BadRef) => None
      case (Some(ps), NoRef) => Some(ps)
      case (Some(ps), Use(p)) => Some(ps + [p])
  {
    assert (init + [last])[..|init|] == init;
  }

  lemma PinsStep(init: seq<string>, last: string, all: seq<string>, ref: Ref, p: Pin)
    requires all == init + [last] && ref == ActionLine(last)
    requires Pins(init).None? <==> SomeLine(init, BadRef)
    requires Pins(init).Some? ==> (p in Pins(init).value <==> SomeLine(init, Use(p)))
    ensures Pins(all).None? <==> SomeLine(all, BadRef)
    ensures Pins(all).Some? ==> (p in Pins(all).value <==> SomeLine(all, Use(p)))
  {
    PinsLast(init, last);
    SomeLineNext(init, last, BadRef);
    SomeLineNext(init, last, Use(p));
  }

  /** A file is refused exactly if one of its lines is, and otherwise the pins found are
      those its lines name. */
  lemma {:induction false} PinsAre(raws: seq<string>, p: Pin)
    ensures Pins(raws).None? <==> SomeLine(raws, BadRef)
    ensures Pins(raws).Some? ==> (p in Pins(raws).value <==> SomeLine(raws, Use(p)))
  {
    if raws != [] {
      var init, last := raws[..|raws| - 1], raws[|raws| - 1];
      PinsAre(init, p);
      PinsStep(init, last, raws, ActionLine(last), p);
    }
  }
}
