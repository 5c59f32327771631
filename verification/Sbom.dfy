/** The inventory scripts/sbom.py builds: pinned actions and their dedup, the
    package urls, and the order of the component list. */
module Sbom {
  import opened Lists
  import opened Pieces
  import opened Text
  import opened PathGate
  import opened Sums

  datatype Pin = Pin(name: string, digest: string)

  /* ---- one `uses:` line ---- */

  predicate Slug(c: char) { 'A' <= c <= 'Z' || 'a' <= c <= 'z' || '0' <= c <= '9' || c in "_.-" }

  predicate CommitId(s: string) { (|s| == 40 || |s| == 64) && All(s, LowerHex) }

  /** owner/repo or owner/repo/path..., every part a slug. */
  predicate ActionName(s: string) {
    |Split(s)| >= 2 && forall p :: p in Split(s) ==> p != "" && All(p, Slug)
  }

  predicate Pinned(p: Pin) { ActionName(p.name) && CommitId(p.digest) }

  datatype Ref = NoRef | BadRef | Use(pin: Pin)

  function Before(s: string, c: char): string {
    match Find(s, c)
    case None => s
    case Some(k) => s[..k]
  }

  function Strip(s: string): string { Trim(s, PySpace) }

  /** `owner/repo@<commit>`. */
  function ParseSpec(spec: string): Ref {
    match Find(spec, '@')
    case None => BadRef
    case Some(k) =>
      var p := Pin(spec[..k], spec[k + 1..]);
      if Pinned(p) then Use(p) else BadRef
  }

  function ActionLine(raw: string): Ref {
    var s := Strip(raw);
    if s == "" || s[0] == '#' then NoRef
    else
      var t := if "- " <= s then TrimLeft(s[2..], PySpace) else s;
      if !("uses:" <= t) then NoRef
      else
        var spec := Strip(Before(Strip(t[5..]), '#'));
        if "./" <= spec then NoRef else ParseSpec(spec)
  }

  /** The pins of some lines in order, unless one of them is not pinned. */
  function Pins(raws: seq<string>): Option<seq<Pin>> {
    if raws == [] then Some([])
    else
      match Pins(raws[..|raws| - 1])
      case None => None
      case Some(ps) =>
        match ActionLine(raws[|raws| - 1])
        case NoRef => Some(ps)
        case BadRef => None
        case Use(p) => Some(ps + [p])
  }

  function Flatten<T>(xss: seq<seq<T>>): seq<T> {
    if xss == [] then [] else Flatten(xss[..|xss| - 1]) + xss[|xss| - 1]
  }

  function Key(p: Pin): string { p.name + ("@" + p.digest) }

  lemma {:induction false} PartsLack(s: string, c: char)
    requires c != '/' && forall p :: p in Split(s) ==> c !in p
    ensures c !in s
    decreases |s|
  {
    match Find(s, '/')
    case None => assert s in Split(s);
    case Some(k) =>
      var t := s[k + 1..];
      assert Split(s) == [s[..k]] + Split(t);
      assert s[..k] in Split(s) && forall p :: p in Split(t) ==> p in Split(s);
      PartsLack(t, c);
      LacksJoin(s[..k], t, c);
      assert s == s[..k] + (['/'] + t);
  }

  lemma LacksJoin(a: string, b: string, c: char)
    requires c !in a && c !in b && c != '/'
    ensures c !in a + (['/'] + b)
  {
  }

  lemma SlugsHaveNoAt(s: string)
    requires forall p :: p in Split(s) ==> All(p, Slug)
    ensures '@' !in s && '#' !in s
  {
    PartsLack(s, '@');
    PartsLack(s, '#');
  }

  lemma KeyInjective(p: Pin, q: Pin)
    requires Pinned(p) && Pinned(q) && Key(p) == Key(q)
    ensures p == q
  {
    SlugsHaveNoAt(p.name);
    SlugsHaveNoAt(q.name);
    SplitOnce(p.name, '@', p.digest, q.name, q.digest);
  }

  /** Text around its first c splits one way only. */
  lemma SplitOnce(a: string, c: char, b: string, d: string, e: string)
    requires c !in a && c !in d && a + ([c] + b) == d + ([c] + e)
    ensures a == d && b == e
  {
    FindSplit(a, c, b);
    FindSplit(d, c, e);
    assert a + ([c] + b) == a + [c] + b && d + ([c] + e) == d + [c] + e;
    var s := a + [c] + b;
    assert a == s[..|a|] && b == s[|a| + 1..];
    assert d == s[..|d|] && e == s[|d| + 1..];
  }

  ghost predicate Keyed(seen: set<string>, ps: seq<Pin>) {
    && (forall p :: p in ps ==> Pinned(p))
    && (forall k :: k in seen <==> exists p :: p in ps && Key(p) == k)
  }

  lemma SeenIsIn(seen: set<string>, ps: seq<Pin>, p: Pin)
    requires Keyed(seen, ps) && Pinned(p)
    ensures Key(p) in seen <==> p in ps
  {
    if Key(p) in seen {
      var q :| q in ps && Key(q) == Key(p);
      KeyInjective(p, q);
    }
  }

  lemma KeyedNext(seen: set<string>, ps: seq<Pin>, p: Pin)
    requires Keyed(seen, ps) && Pinned(p)
    ensures Keyed(seen + {Key(p)}, ps + [p])
  {
    forall k ensures k in seen + {Key(p)} <==> exists q :: q in ps + [p] && Key(q) == k {
      if k == Key(p) {
        assert p in ps + [p];
      }
      if k in seen {
        var q :| q in ps && Key(q) == k;
        assert q in ps + [p];
      }
    }
  }

  lemma {:induction false} PinsGrow(a: seq<string>, b: seq<string>)
    requires a <= b
    ensures Pins(a).None? ==> Pins(b).None?
    decreases |b|
  {
    if |a| < |b| {
      PinsGrow(a, b[..|b| - 1]);
    } else {
      assert a == b;
    }
  }

  lemma PinsNext(raws: seq<string>, k: nat)
    requires k < |raws| && Pins(raws[..k]).Some?
    ensures var ps := Pins(raws[..k]).value;
      Pins(raws[..k + 1]) ==
        match ActionLine(raws[k])
        case NoRef => Some(ps)
        case BadRef => None
        case Use(p) => Some(ps + [p])
    ensures Pins(raws[..k + 1]).None? ==> Pins(raws).None?
  {
    assert raws[..k + 1][..k] == raws[..k];
    PinsGrow(raws[..k + 1], raws);
  }

  ghost predicate Parsed(raws: seq<string>, k: nat, found: seq<Pin>, seen: set<string>)
    requires k <= |raws|
  {
    Pins(raws[..k]).Some? && found == Dedup(Pins(raws[..k]).value) && Keyed(seen, found)
  }

  lemma ParsedNext(raws: seq<string>, k: nat, found: seq<Pin>, seen: set<string>)
    requires k < |raws| && Parsed(raws, k, found, seen)
    ensures match ActionLine(raws[k])
            case NoRef => Parsed(raws, k + 1, found, seen)
            case BadRef => Pins(raws).None?
            case Use(p) => if Key(p) in seen then Parsed(raws, k + 1, found, seen)
                           else Parsed(raws, k + 1, found + [p], seen + {Key(p)})
  {
    PinsNext(raws, k);
    if ActionLine(raws[k]).Use? {
      ParsedUse(Pins(raws[..k]).value, found, seen, ActionLine(raws[k]).pin);
    }
  }

  lemma ParsedUse(ps: seq<Pin>, found: seq<Pin>, seen: set<string>, p: Pin)
    requires found == Dedup(ps) && Keyed(seen, found) && Pinned(p)
    ensures Dedup(ps + [p]) == if Key(p) in seen then found else found + [p]
    ensures Keyed(seen + {Key(p)}, found + [p])
  {
    DedupNext(ps, p);
    SeenIsIn(seen, found, p);
    KeyedNext(seen, found, p);
  }

  /** `parse_actions`: one workflow file. */
  method ParseActions(text: string) returns (r: Option<seq<Pin>>)
    ensures r == match Pins(PyLines(text)) case None => None case Some(ps) => Some(Dedup(ps))
    ensures r.Some? ==> forall p :: p in r.value ==> Pinned(p)
  {
    var raws := PyLines(text);
    var found: seq<Pin>, seen: set<string> := [], {};
    for k := 0 to |raws|
      invariant Parsed(raws, k, found, seen)
    {
      ParsedNext(raws, k, found, seen);
      var ref := ActionLine(raws[k]);
      if ref.BadRef? { return None; }
      if ref.Use? && Key(ref.pin) !in seen {
        seen := seen + {Key(ref.pin)};
        found := found + [ref.pin];
      }
    }
    assert raws[..|raws|] == raws;
    return Some(found);
  }

  /** Every file's pins in one list, unless some line is not pinned. */
  function AllPins(texts: seq<string>): Option<seq<Pin>> {
    if texts == [] then Some([])
    else
      match AllPins(texts[..|texts| - 1])
      case None => None
      case Some(ps) =>
        match Pins(PyLines(texts[|texts| - 1]))
        case None => None
        case Some(qs) => Some(ps + qs)
  }

  lemma {:induction false} AllPinsGrow(a: seq<string>, b: seq<string>)
    requires a <= b && AllPins(a).None?
    ensures AllPins(b).None?
    decreases |b|
  {
    if |a| < |b| {
      AllPinsGrow(a, b[..|b| - 1]);
    } else {
      assert a == b;
    }
  }

  /** `load_actions`: per-file dedup, then dedup across files, is one dedup of all
      the pins there are. */
  method LoadActions(texts: seq<string>) returns (r: Option<seq<Pin>>)
    ensures r == match AllPins(texts) case None => None case Some(ps) => if ps == [] then None else Some(Dedup(ps))
  {
    var actions: seq<Pin>, seen: set<string> := [], {};
    for k := 0 to |texts|
      invariant AllPins(texts[..k]).Some? && actions == Dedup(AllPins(texts[..k]).value) && Keyed(seen, actions)
    {
      assert texts[..k + 1][..k] == texts[..k];
      var file := ParseActions(texts[k]);
      if file.None? {
        AllPinsGrow(texts[..k + 1], texts);
        return None;
      }
      ghost var all, some := AllPins(texts[..k]).value, Pins(PyLines(texts[k])).value;
      DedupIsItself(actions);
      actions, seen := AddNew(actions, seen, file.value);
      DedupLeft(all, file.value);
      DedupRight(all, some);
    }
    assert texts[..|texts|] == texts;
    return if actions == [] then None else Some(actions);
  }

  /** The inner loop of `load_actions`. */
  method AddNew(actions: seq<Pin>, seen: set<string>, file: seq<Pin>) returns (next: seq<Pin>, keys: set<string>)
    requires Keyed(seen, actions) && Dedup(actions) == actions && forall p :: p in file ==> Pinned(p)
    ensures next == Dedup(actions + file) && Keyed(keys, next)
  {
    next, keys := actions, seen;
    assert actions + file[..0] == actions;
    for k := 0 to |file|
      invariant next == Dedup(actions + file[..k]) && Keyed(keys, next)
    {
      var p := file[k];
      assert actions + file[..k + 1] == actions + file[..k] + [p];
      DedupNext(actions + file[..k], p);
      SeenIsIn(keys, next, p);
      if Key(p) !in keys {
        KeyedNext(keys, next, p);
        keys := keys + {Key(p)};
        next := next + [p];
      }
    }
    assert file[..|file|] == file;
  }

  /* ---- package urls ---- */

  function JoinSlash(parts: seq<string>): string
    requires parts != []
  {
    if |parts| == 1 then parts[0] else parts[0] + ("/" + JoinSlash(parts[1..]))
  }

  lemma {:induction false} SplitThenJoin(s: string)
    ensures JoinSlash(Split(s)) == s
    decreases |s|
  {
    match Find(s, '/')
    case None =>
    case Some(k) =>
      SplitThenJoin(s[k + 1..]);
      JoinFirst(s[..k], Split(s[k + 1..]));
      CutOut(s, k);
  }

  lemma JoinFirst(head: string, parts: seq<string>)
    requires parts != []
    ensures JoinSlash([head] + parts) == head + ("/" + JoinSlash(parts))
  {
    assert ([head] + parts)[1..] == parts;
  }

  lemma CutOut(s: string, k: nat)
    requires k < |s| && s[k] == '/'
    ensures s[..k] + ("/" + s[k + 1..]) == s
  {
  }

  function Repository(parts: seq<string>): string
    requires |parts| >= 2
  {
    parts[0] + ("/" + parts[1])
  }

  function Beyond(parts: seq<string>, mark: char): string
    requires |parts| >= 2
  {
    if |parts| > 2 then [mark] + JoinSlash(parts[2..]) else ""
  }

  lemma Reassociate(a: string, b: string, c: string, d: string, e: string)
    ensures a + (b + (c + (d + e))) == (a + (b + c)) + (d + e)
  {
  }

  lemma NameByParts(p: seq<string>)
    requires |p| >= 2
    ensures JoinSlash(p) == Repository(p) + Beyond(p, '/')
  {
    if |p| == 2 {
      assert p[1..] == [p[1]];
      assert Beyond(p, '/') == "";
    } else {
      JoinThree(p);
      Reassociate(p[0], "/", p[1], "/", JoinSlash(p[2..]));
    }
  }

  lemma JoinThree(p: seq<string>)
    requires |p| > 2
    ensures JoinSlash(p) == p[0] + ("/" + (p[1] + ("/" + JoinSlash(p[2..]))))
  {
    assert p[1..][1..] == p[2..] && p[1..][0] == p[1];
  }

  /** Name and digest decide the url, piece by piece. */
  function PurlTail(p: Pin): string
    requires ActionName(p.name)
  {
    p.digest + Beyond(Split(p.name), '#')
  }

  function GithubPurl(p: Pin): string
    requires ActionName(p.name)
  {
    "pkg:github/" + (Repository(Split(p.name)) + (['@'] + PurlTail(p)))
  }

  lemma Cancel(pre: string, a: string, b: string)
    requires pre + a == pre + b
    ensures a == b
  {
    assert a == (pre + a)[|pre|..];
  }

  lemma RepositoryHasNoAt(p: Pin)
    requires Pinned(p)
    ensures '@' !in Repository(Split(p.name))
  {
    SlugsHaveNoAt(p.name);
    SplitThenJoin(p.name);
    NameByParts(Split(p.name));
  }

  /** Two accepted pins with one package url are one pin. */
  lemma GithubPurlInjective(p: Pin, q: Pin)
    requires Pinned(p) && Pinned(q) && GithubPurl(p) == GithubPurl(q)
    ensures p == q
  {
    var a, b := Split(p.name), Split(q.name);
    RepositoryHasNoAt(p);
    RepositoryHasNoAt(q);
    Cancel("pkg:github/", Repository(a) + (['@'] + PurlTail(p)), Repository(b) + (['@'] + PurlTail(q)));
    SplitOnce(Repository(a), '@', PurlTail(p), Repository(b), PurlTail(q));
    DigestThenPath(p.digest, Beyond(a, '#'), q.digest, Beyond(b, '#'));
    SameBeyond(a, b);
    NameByParts(a);
    NameByParts(b);
    SplitThenJoin(p.name);
    SplitThenJoin(q.name);
  }

  lemma SameBeyond(a: seq<string>, b: seq<string>)
    requires |a| >= 2 && |b| >= 2 && Beyond(a, '#') == Beyond(b, '#')
    ensures Beyond(a, '/') == Beyond(b, '/')
  {
    if |a| > 2 && |b| > 2 {
      Cancel("#", JoinSlash(a[2..]), JoinSlash(b[2..]));
    }
  }

  /** So the deduplicated pins have pairwise different urls. */
  lemma ActionPurlsDistinct(ps: seq<Pin>, i: nat, j: nat)
    requires (forall p :: p in ps ==> Pinned(p)) && i < j < |Dedup(ps)|
    ensures var d := Dedup(ps);
      ActionName(d[i].name) && ActionName(d[j].name) && GithubPurl(d[i]) != GithubPurl(d[j])
  {
    var d := Dedup(ps);
    assert d[i] in ps && d[j] in ps;
    if GithubPurl(d[i]) == GithubPurl(d[j]) {
      GithubPurlInjective(d[i], d[j]);
    }
  }

  lemma DigestThenPath(d: string, x: string, e: string, y: string)
    requires CommitId(d) && CommitId(e) && d + x == e + y
    requires (x == "" || x[0] == '#') && (y == "" || y[0] == '#')
    ensures d == e && x == y
  {
    if |d| < |e| {
      LongerHasMark(d, x, e, y);
    } else if |e| < |d| {
      LongerHasMark(e, y, d, x);
    } else {
      assert d == (d + x)[..|d|] && x == (d + x)[|d|..];
    }
  }

  lemma LongerHasMark(d: string, x: string, e: string, y: string)
    requires |d| < |e| && d + x == e + y && (x == "" || x[0] == '#')
    ensures '#' in e
  {
    assert (d + x)[|d|] == x[0] && (e + y)[|d|] == e[|d|];
  }

  /** `rfind`. */
  function RFind(s: string, c: char): (r: Option<nat>)
    ensures r.None? ==> c !in s
    ensures r.Some? ==> r.value < |s| && s[r.value] == c && c !in s[r.value + 1..]
  {
    if s == [] then None
    else if s[|s| - 1] == c then Some(|s| - 1)
    else
      var init := s[..|s| - 1];
      assert s == init + [s[|s| - 1]];
      match RFind(init, c)
      case None => None
      case Some(k) =>
        assert s[k + 1..] == init[k + 1..] + [s[|s| - 1]];
        Some(k)
  }

  datatype Deb = Deb(name: string, version: string, arch: string)

  function Stem(filename: string): string {
    if |filename| >= 4 && filename[|filename| - 4..] == ".deb" then filename[..|filename| - 4] else filename
  }

  /** Name, version and architecture, parted at the last two underscores. */
  function SplitStem(stem: string): Option<Deb> {
    match RFind(stem, '_')
    case None => None
    case Some(at) =>
      match RFind(stem[..at], '_')
      case None => None
      case Some(rest) => Some(Deb(stem[..rest], stem[..at][rest + 1..], stem[at + 1..]))
  }

  /** `deb_purl` before it prints; None is its refusal. */
  function ParseDeb(filename: string): Option<Deb> { SplitStem(Stem(filename)) }

  function DebText(d: Deb): string { (d.name + ("_" + d.version)) + ("_" + d.arch) }

  lemma RFindParts(s: string, c: char)
    requires RFind(s, c).Some?
    ensures var k := RFind(s, c).value; s == s[..k] + ([c] + s[k + 1..])
  {
  }

  lemma {:induction false} RFindSplit(a: string, c: char, b: string)
    requires c !in b
    ensures var s := a + ([c] + b); RFind(s, c) == Some(|a|) && s[..|a|] == a && s[|a| + 1..] == b
    decreases |b|
  {
    var s := a + ([c] + b);
    if b != [] {
      var init := b[..|b| - 1];
      assert s[..|s| - 1] == a + ([c] + init) && s[|s| - 1] == b[|b| - 1];
      assert b[|b| - 1] in b;
      RFindSplit(a, c, init);
    }
  }

  lemma LastField(head: string, last: string)
    requires '_' !in last
    ensures var s := head + ("_" + last);
      RFind(s, '_') == Some(|head|) && s[..|head|] == head && s[|head| + 1..] == last
  {
    RFindSplit(head, '_', last);
    assert head + ("_" + last) == head + (['_'] + last);
  }

  lemma StemSplits(d: Deb)
    requires '_' !in d.version && '_' !in d.arch
    ensures SplitStem(DebText(d)) == Some(d)
  {
    LastField(d.name + ("_" + d.version), d.arch);
    LastField(d.name, d.version);
    var s, head := DebText(d), d.name + ("_" + d.version);
    assert s[..|d.name|] == head[..|d.name|];
  }

  lemma StemIs(s: string, d: Deb)
    requires SplitStem(s) == Some(d)
    ensures s == DebText(d) && '_' !in d.version && '_' !in d.arch
  {
    var at := RFind(s, '_').value;
    RFindParts(s, '_');
    RFindParts(s[..at], '_');
    assert s[..at][..RFind(s[..at], '_').value] == d.name;
  }

  /** The split loses nothing: name, version and architecture put together again
      are the file name, the last two hold no underscore, and no other split does
      both. */
  lemma DebRecomposes(filename: string, d: Deb)
    ensures ParseDeb(filename) == Some(d) <==> Stem(filename) == DebText(d) && '_' !in d.version && '_' !in d.arch
  {
    if ParseDeb(filename) == Some(d) {
      StemIs(Stem(filename), d);
    }
    if '_' !in d.version && '_' !in d.arch {
      StemSplits(d);
    }
  }

  /* ---- the component list ---- */

  datatype Component = Component(purl: string, body: string)

  /** Code point order, as Python compares strings. */
  predicate LexLe(a: string, b: string) {
    if a == [] then true
    else if b == [] then false
    else if a[0] == b[0] then LexLe(a[1..], b[1..])
    else a[0] < b[0]
  }

  lemma {:induction false} LexTotal(a: string, b: string)
    ensures LexLe(a, b) || LexLe(b, a)
    ensures LexLe(a, b) && LexLe(b, a) ==> a == b
  {
    if a != [] && b != [] && a[0] == b[0] {
      LexTotal(a[1..], b[1..]);
      assert a == [a[0]] + a[1..] && b == [b[0]] + b[1..];
    }
  }

  lemma {:induction false} LexTrans(a: string, b: string, c: string)
    requires LexLe(a, b) && LexLe(b, c)
    ensures LexLe(a, c)
  {
    if a != [] && b != [] && c != [] && a[0] == b[0] == c[0] {
      LexTrans(a[1..], b[1..], c[1..]);
    }
  }

  /** Insert after every component with a smaller or equal purl. */
  function Insert(xs: seq<Component>, x: Component): (r: seq<Component>)
    ensures |r| == |xs| + 1
  {
    if xs == [] || LexLe(xs[|xs| - 1].purl, x.purl) then xs + [x]
    else Insert(xs[..|xs| - 1], x) + [xs[|xs| - 1]]
  }

  /** The stable `components.sort(key=purl)`. */
  function SortByPurl(xs: seq<Component>): seq<Component> {
    if xs == [] then [] else Insert(SortByPurl(xs[..|xs| - 1]), xs[|xs| - 1])
  }

  predicate Sorted(xs: seq<Component>) { forall i, j :: 0 <= i <= j < |xs| ==> LexLe(xs[i].purl, xs[j].purl) }

  /** The components with one purl, in order. */
  function Same(xs: seq<Component>, purl: string): seq<Component> {
    if xs == [] then []
    else Same(xs[..|xs| - 1], purl) + if xs[|xs| - 1].purl == purl then [xs[|xs| - 1]] else []
  }

  lemma SameNext(xs: seq<Component>, x: Component, purl: string)
    ensures Same(xs + [x], purl) == Same(xs, purl) + if x.purl == purl then [x] else []
  {
    assert (xs + [x])[..|xs|] == xs;
  }

  lemma SortedNext(xs: seq<Component>, x: Component)
    requires Sorted(xs) && (xs != [] ==> LexLe(xs[|xs| - 1].purl, x.purl))
    ensures Sorted(xs + [x])
  {
    LexTotal(x.purl, x.purl);
    forall i | 0 <= i < |xs| ensures LexLe(xs[i].purl, x.purl) { LexTrans(xs[i].purl, xs[|xs| - 1].purl, x.purl); }
  }

  lemma {:induction false} InsertKeeps(xs: seq<Component>, x: Component)
    requires Sorted(xs)
    ensures Sorted(Insert(xs, x)) && multiset(Insert(xs, x)) == multiset(xs) + multiset{x}
    ensures Insert(xs, x)[|xs|] in xs + [x]
  {
    if xs == [] || LexLe(xs[|xs| - 1].purl, x.purl) {
      SortedNext(xs, x);
    } else {
      var init, last := xs[..|xs| - 1], xs[|xs| - 1];
      InsertKeeps(init, x);
      LexTotal(last.purl, x.purl);
      var r := Insert(init, x);
      assert xs == init + [last];
      assert LexLe(r[|init|].purl, last.purl) by {
        if r[|init|] != x {
          var i :| 0 <= i < |init| && init[i] == r[|init|];
          assert xs[i] == init[i];
        }
      }
      SortedNext(r, last);
      assert (r + [last])[|xs|] == xs[|xs| - 1];
    }
  }

  lemma {:induction false} InsertSame(xs: seq<Component>, x: Component, p: string)
    ensures Same(Insert(xs, x), p) == Same(xs + [x], p)
  {
    SameNext(xs, x, p);
    if xs != [] && !LexLe(xs[|xs| - 1].purl, x.purl) {
      var init, last := xs[..|xs| - 1], xs[|xs| - 1];
      LexTotal(x.purl, x.purl);
      InsertSame(init, x, p);
      SameNext(Insert(init, x), last, p);
      SameNext(init, x, p);
    }
  }

  /** The sort orders and keeps every component ... */
  lemma {:induction false} SortKeeps(xs: seq<Component>)
    ensures Sorted(SortByPurl(xs)) && multiset(SortByPurl(xs)) == multiset(xs)
  {
    if xs != [] {
      var init, x := xs[..|xs| - 1], xs[|xs| - 1];
      assert xs == init + [x];
      SortKeeps(init);
      InsertKeeps(SortByPurl(init), x);
    }
  }

  /** ... and leaves those with one purl in the order they came. */
  lemma {:induction false} SortIsStable(xs: seq<Component>, p: string)
    ensures Same(SortByPurl(xs), p) == Same(xs, p)
  {
    if xs != [] {
      var init, x := xs[..|xs| - 1], xs[|xs| - 1];
      assert xs == init + [x];
      SortIsStable(init, p);
      InsertSame(SortByPurl(init), x, p);
      SameNext(SortByPurl(init), x, p);
    }
  }

  /** One component per purl, up to repetition. */
  predicate OnePerPurl(xs: seq<Component>) { forall x, y :: x in xs && y in xs && x.purl == y.purl ==> x == y }

  lemma LastIsTop(xs: seq<Component>, z: Component)
    requires Sorted(xs) && z in xs
    ensures LexLe(z.purl, xs[|xs| - 1].purl)
  {
    var k :| 0 <= k < |xs| && xs[k] == z;
  }

  lemma SameTop(a: seq<Component>, b: seq<Component>)
    requires Sorted(a) && Sorted(b) && multiset(a) == multiset(b) && OnePerPurl(a) && a != [] && b != []
    ensures a[|a| - 1] == b[|b| - 1]
  {
    var x, y := a[|a| - 1], b[|b| - 1];
    assert x in multiset(b) && y in multiset(a);
    assert x in b && y in a;
    LastIsTop(a, y);
    LastIsTop(b, x);
    LexTotal(x.purl, y.purl);
  }

  lemma SameLength(a: seq<Component>, b: seq<Component>)
    requires multiset(a) == multiset(b)
    ensures |a| == |b|
  {
    assert |multiset(a)| == |a| && |multiset(b)| == |b|;
  }

  /** Without their common last component both are as before. */
  lemma Shorter(a: seq<Component>, b: seq<Component>)
    requires Sorted(a) && Sorted(b) && multiset(a) == multiset(b) && OnePerPurl(a) && a != [] && b != []
    requires a[|a| - 1] == b[|b| - 1]
    ensures var c, d := a[..|a| - 1], b[..|b| - 1];
      Sorted(c) && Sorted(d) && multiset(c) == multiset(d) && OnePerPurl(c)
  {
    ButLast(a);
    ButLast(b);
    SortedPrefix(a);
    SortedPrefix(b);
  }

  lemma SortedPrefix(a: seq<Component>)
    requires a != [] && Sorted(a)
    ensures Sorted(a[..|a| - 1]) && (OnePerPurl(a) ==> OnePerPurl(a[..|a| - 1]))
  {
    assert forall x :: x in a[..|a| - 1] ==> x in a;
  }

  lemma {:induction false} SortedUnique(a: seq<Component>, b: seq<Component>)
    requires Sorted(a) && Sorted(b) && multiset(a) == multiset(b) && OnePerPurl(a)
    ensures a == b
    decreases |a|
  {
    SameLength(a, b);
    if a != [] {
      SameTop(a, b);
      Shorter(a, b);
      SortedUnique(a[..|a| - 1], b[..|b| - 1]);
      assert a == a[..|a| - 1] + [a[|a| - 1]] && b == b[..|b| - 1] + [b[|b| - 1]];
    }
  }

  lemma ButLast(a: seq<Component>)
    requires a != []
    ensures var i := a[..|a| - 1]; a == i + [a[|a| - 1]] && multiset(i) == multiset(a) - multiset{a[|a| - 1]}
  {
    assert a == a[..|a| - 1] + [a[|a| - 1]];
  }

  /* ---- what `build_bom` puts in the list ---- */

  /** The url after its fixed prefix. */
  function DebTail(d: Deb): string { d.name + ("@" + (d.version + ("?arch=" + d.arch))) }

  function DebPurl(d: Deb): string { "pkg:deb/ubuntu/" + DebTail(d) }

  /** What `ParseDeb` gives: the last two fields hold no underscore. */
  predicate Fielded(d: Deb) { '_' !in d.version && '_' !in d.arch }

  predicate At(s: string, t: string, k: nat) { k + |t| <= |s| && s[k..k + |t|] == t }

  ghost predicate Has(s: string, t: string) { exists k: nat :: At(s, t, k) }

  function AfterLast(s: string, c: char): (t: string)
    ensures |t| <= |s| && t == s[|s| - |t|..] && c !in t
  {
    match RFind(s, c)
    case None => s
    case Some(k) => s[k + 1..]
  }

  /** Its url can be read in another way: an `@` in the version, or in the name after
      its last underscore, or the text `?arch=` in the version or the architecture. */
  ghost predicate Ambiguous(d: Deb) {
    '@' in AfterLast(d.name, '_') || '@' in d.version || Has(d.version, "?arch=") || Has(d.arch, "?arch=")
  }

  /** Where the mark of a package lies in its url. */
  function MarkAt(d: Deb): nat { |d.name| + 1 + |d.version| }

  /** The url u, after its prefix, is read as d. */
  predicate Reads(u: string, d: Deb) {
    var n, q := |d.name|, MarkAt(d);
    && |u| == q + 6 + |d.arch| && u[..n] == d.name && u[n] == '@' && u[n + 1..q] == d.version
    && u[q..q + 6] == "?arch=" && u[q + 6..] == d.arch
  }

  lemma DebFields(d: Deb)
    ensures Reads(DebTail(d), d)
  {
    var u, n, q := DebTail(d), |d.name|, MarkAt(d);
    var w := d.version + ("?arch=" + d.arch);
    assert u[n + 1..] == w;
    assert u[n + 1..q] == w[..|d.version|] && u[q..q + 6] == w[|d.version|..|d.version| + 6];
    assert u[q + 6..] == w[|d.version| + 6..];
  }

  lemma MarkChars(u: string, q: nat)
    requires q + 6 <= |u| && u[q..q + 6] == "?arch="
    ensures u[q] == '?' && forall k :: q <= k < q + 6 ==> u[k] != '@' && u[k] != '_' && (k > q ==> u[k] != '?')
  {
    forall k | q <= k < q + 6 ensures u[k] == "?arch="[k - q] {
      assert u[q..q + 6][k - q] == u[k];
    }
  }

  lemma AtTail(u: string, from: nat, to: nat, k: nat, t: string)
    requires from <= k && k + |t| <= to <= |u| && u[k..k + |t|] == t
    ensures Has(u[from..to], t)
  {
    var s := u[from..to];
    forall j | 0 <= j < |t| ensures s[k - from + j] == t[j] {
      assert u[k..k + |t|][j] == u[k + j];
    }
    assert s[k - from..k - from + |t|] == t;
    assert At(s, t, k - from);
  }

  /** Two marks do not overlap. */
  lemma MarksApart(u: string, p: nat, q: nat)
    requires p + 6 <= |u| && q + 6 <= |u| && u[p..p + 6] == "?arch=" == u[q..q + 6] && p < q
    ensures p + 6 <= q
  {
    MarkChars(u, p);
    MarkChars(u, q);
  }

  lemma AtMarkTail(u: string, q: nat, m: nat, r: nat)
    requires q + 6 <= |u| && u[q..q + 6] == "?arch=" && q <= m < r
    requires r + 6 <= |u| && u[r..r + 6] == "?arch=" && u[m] == '@'
    ensures Has(u[q + 6..], "?arch=")
  {
    MarkChars(u, q);
    AtTail(u, q + 6, |u|, r, "?arch=");
    assert u[q + 6..|u|] == u[q + 6..];
  }

  lemma AtInside(u: string, from: nat, to: nat, m: nat)
    requires from <= m < to <= |u| && u[m] == '@'
    ensures '@' in u[from..to]
  {
    assert u[from..to][m - from] == '@';
  }

  /** Another package whose name ends later. */
  lemma LaterName(u: string, a: Deb, b: Deb)
    requires Reads(u, a) && Reads(u, b) && |a.name| < |b.name|
    ensures '@' in a.version || Has(a.arch, "?arch=")
  {
    if |b.name| < MarkAt(a) {
      AtInside(u, |a.name| + 1, MarkAt(a), |b.name|);
    } else {
      AtMarkTail(u, MarkAt(a), |b.name|, MarkAt(b));
    }
  }

  /** ... earlier: its version begins inside the name, and holds no underscore. */
  lemma EarlierName(u: string, a: Deb, b: Deb)
    requires Reads(u, a) && Reads(u, b) && Fielded(b) && |b.name| < |a.name|
    ensures '@' in AfterLast(a.name, '_')
  {
    var n, m := |a.name|, |b.name|;
    assert forall k :: 0 <= k < n ==> u[k] == a.name[k];
    forall k | m < k < n ensures a.name[k] != '_' {
      NoUnderscore(u, b, k);
    }
    InLast(a.name, m, '_');
  }

  lemma InLast(s: string, m: nat, c: char)
    requires m < |s| && s[m] != c && forall k :: m < k < |s| ==> s[k] != c
    ensures s[m] in AfterLast(s, c)
  {
    match RFind(s, c)
    case None =>
    case Some(k) => assert s[k + 1..][m - k - 1] == s[m];
  }

  lemma NoUnderscore(u: string, b: Deb, k: nat)
    requires Reads(u, b) && Fielded(b) && |b.name| < k < |u|
    ensures u[k] != '_'
  {
    var m, r := |b.name|, MarkAt(b);
    MarkChars(u, r);
    if k < r {
      assert u[m + 1..r][k - m - 1] == u[k];
    } else if r + 6 <= k {
      assert u[r + 6..][k - r - 6] == u[k];
    }
  }

  lemma TwoMarks(u: string, from: nat, q: nat, r: nat)
    requires from <= q && q + 6 <= |u| && u[q..q + 6] == "?arch="
    requires from <= r && r + 6 <= |u| && u[r..r + 6] == "?arch=" && q != r
    ensures Has(u[from..q], "?arch=") || Has(u[q + 6..], "?arch=")
  {
    if r < q {
      MarksApart(u, r, q);
      AtTail(u, from, q, r, "?arch=");
    } else {
      MarksApart(u, q, r);
      AtTail(u, q + 6, |u|, r, "?arch=");
      assert u[q + 6..|u|] == u[q + 6..];
    }
  }

  /** Another package with a name as long: the marks lie elsewhere. */
  lemma OtherMark(u: string, a: Deb, b: Deb)
    requires Reads(u, a) && Reads(u, b) && |a.name| == |b.name| && a != b
    ensures Has(a.version, "?arch=") || Has(a.arch, "?arch=")
  {
    TwoMarks(u, |a.name| + 1, MarkAt(a), MarkAt(b));
  }

  /** Another package with the same url, for each way to read it. */
  lemma OtherReading(a: Deb) returns (b: Deb)
    requires Fielded(a) && Ambiguous(a)
    ensures Fielded(b) && b != a && DebPurl(b) == DebPurl(a)
  {
    if '@' in a.version {
      var j :| 0 <= j < |a.version| && a.version[j] == '@';
      var v, w := a.version[..j], a.version[j + 1..];
      assert a.version == v + "@" + w;
      b := Deb(a.name + "@" + v, w, a.arch);
      DebPurlsMeet(a.name, v, w, a.arch);
    } else if '@' in AfterLast(a.name, '_') {
      b := SplitName(a);
    } else if k: nat :| At(a.version, "?arch=", k) {
      var v, w := a.version[..k], a.version[k + 6..];
      assert a.version == v + "?arch=" + w;
      b := Deb(a.name, v, w + "?arch=" + a.arch);
      DebMarksMeet(a.name, v, w, a.arch);
    } else {
      var k: nat :| At(a.arch, "?arch=", k);
      var v, w := a.arch[..k], a.arch[k + 6..];
      assert a.arch == v + "?arch=" + w;
      b := Deb(a.name, a.version + "?arch=" + v, w);
      DebMarksMeet(a.name, a.version, v, w);
    }
  }

  lemma SplitName(a: Deb) returns (b: Deb)
    requires Fielded(a) && '@' in AfterLast(a.name, '_')
    ensures Fielded(b) && b != a && DebPurl(b) == DebPurl(a)
  {
    var n, v := CutName(a.name);
    b := MovedAt(a, n, v);
  }

  lemma MovedAt(a: Deb, n: string, v: string) returns (b: Deb)
    requires Fielded(a) && a.name == n + ("@" + v) && '_' !in v
    ensures Fielded(b) && b != a && DebPurl(b) == DebPurl(a)
  {
    b := Deb(n, v + "@" + a.version, a.arch);
    assert n + "@" + v == n + ("@" + v);
    DebPurlsMeet(n, v, a.version, a.arch);
  }

  lemma CutName(name: string) returns (n: string, v: string)
    requires '@' in AfterLast(name, '_')
    ensures name == n + ("@" + v) && '_' !in v
  {
    var t := AfterLast(name, '_');
    var k := |name| - |t|;
    var j :| 0 <= j < |t| && t[j] == '@';
    n, v := name[..k + j], name[k + j + 1..];
    CutAt(name, k + j, '@');
    assert v == t[j + 1..];
  }

  lemma CutAt(s: string, k: nat, c: char)
    requires k < |s| && s[k] == c
    ensures s == s[..k] + ([c] + s[k + 1..])
  {
  }

  /** A package shares its url with some other package exactly when the url can be
      read in another way. */
  lemma DebUrlShared(a: Deb)
    requires Fielded(a)
    ensures (exists b :: Fielded(b) && b != a && DebPurl(b) == DebPurl(a)) <==> Ambiguous(a)
  {
    if Ambiguous(a) {
      var b := OtherReading(a);
    }
    if b :| Fielded(b) && b != a && DebPurl(b) == DebPurl(a) {
      Cancel("pkg:deb/ubuntu/", DebTail(a), DebTail(b));
      DebFields(a);
      DebFields(b);
      OtherIsAmbiguous(DebTail(a), a, b);
    }
  }

  lemma OtherIsAmbiguous(u: string, a: Deb, b: Deb)
    requires Reads(u, a) && Reads(u, b) && Fielded(b) && a != b
    ensures Ambiguous(a)
  {
    if |a.name| < |b.name| {
      LaterName(u, a, b);
    } else if |b.name| < |a.name| {
      EarlierName(u, a, b);
    } else {
      OtherMark(u, a, b);
    }
  }

  /** Two packages that do, by an `@`, and two by a `?arch=`. */
  lemma DebPurlsMeet(n: string, v: string, w: string, arch: string)
    ensures DebPurl(Deb(n + "@" + v, w, arch)) == DebPurl(Deb(n, v + "@" + w, arch))
  {
    var tail := "?arch=" + arch;
    assert (n + "@" + v) + ("@" + (w + tail)) == n + ("@" + ((v + "@" + w) + tail));
  }

  lemma DebMarksMeet(n: string, v: string, w: string, arch: string)
    ensures DebPurl(Deb(n, v + "?arch=" + w, arch)) == DebPurl(Deb(n, v, w + "?arch=" + arch))
  {
    assert (v + "?arch=" + w) + ("?arch=" + arch) == v + ("?arch=" + (w + "?arch=" + arch));
  }

  ghost predicate OrdinaryDeb(filename: string) {
    && |filename| >= 4 && filename[|filename| - 4..] == ".deb"
    && ParseDeb(filename).Some? && !Ambiguous(ParseDeb(filename).value)
  }

  lemma DebFile(filename: string, d: Deb)
    requires |filename| >= 4 && filename[|filename| - 4..] == ".deb" && ParseDeb(filename) == Some(d)
    ensures filename == DebText(d) + ".deb"
  {
    DebRecomposes(filename, d);
    assert filename == filename[..|filename| - 4] + filename[|filename| - 4..];
  }

  lemma DebFileOfPurl(f: string, g: string, d: Deb, e: Deb)
    requires OrdinaryDeb(f) && OrdinaryDeb(g) && ParseDeb(f) == Some(d) && ParseDeb(g) == Some(e) &&
          DebPurl(d) == DebPurl(e)
    ensures f == g
  {
    DebRecomposes(f, d);
    DebRecomposes(g, e);
    DebUrlShared(d);
    DebFile(f, d);
    DebFile(g, d);
  }

  /** What a component holds besides its url is decided by what it was made from. */
  datatype Bodies = Bodies(
    ofDeb: string -> string, ofPin: Pin -> string, ofFuse: string -> string, ofZig: string -> string)

  function DebComponent(f: string, b: Bodies): Component {
    Component(if ParseDeb(f).Some? then DebPurl(ParseDeb(f).value) else "", b.ofDeb(f))
  }

  function PinComponent(p: Pin, b: Bodies): Component {
    Component(if ActionName(p.name) then GithubPurl(p) else "", b.ofPin(p))
  }

  function DebComponents(files: seq<string>, b: Bodies): (xs: seq<Component>)
    ensures forall x :: x in xs ==> exists f :: f in files && x == DebComponent(f, b)
  {
    seq(|files|, i requires 0 <= i < |files| => DebComponent(files[i], b))
  }

  function PinComponents(pins: seq<Pin>, b: Bodies): (xs: seq<Component>)
    ensures forall x :: x in xs ==> exists p :: p in pins && x == PinComponent(p, b)
  {
    seq(|pins|, i requires 0 <= i < |pins| => PinComponent(pins[i], b))
  }

  function FusePurl(version: string): string { "pkg:github/" + ("libfuse/libfuse" + (['@'] + ("fuse-" + version))) }

  function ZigPurl(version: string): string { "pkg:github/" + ("ziglang/zig" + (['@'] + version)) }

  /** n runs of digits with dots between. */
  predicate Numerals(v: string, n: nat)
    decreases n
  {
    var rest := TrimLeft(v, IsDigit);
    |rest| < |v| && (if n <= 1 then rest == "" else rest != "" && rest[0] == '.' && Numerals(rest[1..], n - 1))
  }

  /** `libfuse3-<version>`. */
  function TreeVersion(name: string): Option<string> {
    if "libfuse3-" <= name && Numerals(name[9..], 3) then Some(name[9..]) else None
  }

  predicate Number(s: string) { s != "" && All(s, IsDigit) }

  lemma NumberFirst(a: string, rest: string, n: nat)
    requires Number(a) && (if n <= 1 then rest == "" else rest != "" && rest[0] == '.' && Numerals(rest[1..], n - 1))
    ensures Numerals(a + rest, n)
  {
    TrimLeftDrops(a, rest, IsDigit);
  }

  lemma FirstNumber(v: string, n: nat) returns (a: string, rest: string)
    requires Numerals(v, n)
    ensures v == a + rest && Number(a)
    ensures if n <= 1 then rest == "" else rest != "" && rest[0] == '.' && Numerals(rest[1..], n - 1)
  {
    a := TrimLeftParts(v, IsDigit);
    rest := TrimLeft(v, IsDigit);
  }

  predicate ThreeNumbers(v: string, a: string, b: string, c: string) {
    v == a + ("." + (b + ("." + c))) && Number(a) && Number(b) && Number(c)
  }

  /** Which directory names are a tree, and of which version. */
  lemma TreeVersionIs(name: string, v: string)
    ensures TreeVersion(name) == Some(v) <==>
            name == "libfuse3-" + v && exists a, b, c :: ThreeNumbers(v, a, b, c)
  {
    if Numerals(v, 3) {
      var a, r := FirstNumber(v, 3);
      var b, t := FirstNumber(r[1..], 2);
      var c, none := FirstNumber(t[1..], 1);
      assert c + "" == c && r == "." + r[1..] && t == "." + t[1..];
      assert ThreeNumbers(v, a, b, c);
    }
    if a, b, c :| ThreeNumbers(v, a, b, c) {
      assert c + "" == c;
      NumberFirst(c, "", 1);
      assert ("." + c)[1..] == c;
      NumberFirst(b, "." + c, 2);
      var r := b + ("." + c);
      assert ("." + r)[1..] == r;
      NumberFirst(a, "." + r, 3);
    }
    if name == "libfuse3-" + v {
      assert name[9..] == v;
    }
  }

  function Versions(names: seq<string>): Option<seq<string>> {
    if names == [] then Some([])
    else
      match (Versions(names[..|names| - 1]), TreeVersion(names[|names| - 1]))
      case (Some(vs), Some(v)) => Some(vs + [v])
      case _ => None
  }

  /** `vendored_sources`, as far as it looks at names: the version of each directory
      the glob found, unless one is no tree, or there are none or two versions. */
  function VendoredSources(names: seq<string>): Option<seq<string>> {
    match Versions(names)
    case None => None
    case Some(vs) => if vs == [] || (exists v :: v in vs && v != vs[0]) then None else Some(vs)
  }

  lemma {:induction false} VersionsAre(names: seq<string>)
    ensures Versions(names).Some? <==> forall m :: m in names ==> TreeVersion(m).Some?
    ensures Versions(names).Some? ==>
              && |Versions(names).value| == |names|
              && forall i :: 0 <= i < |names| ==> names[i] == "libfuse3-" + Versions(names).value[i]
  {
    if names != [] {
      var init, m := names[..|names| - 1], names[|names| - 1];
      VersionsAre(init);
      assert names == init + [m];
      assert TreeVersion(m).Some? ==> m == "libfuse3-" + TreeVersion(m).value;
    }
  }

  lemma TreesShareName(names: seq<string>)
    requires VendoredSources(names).Some? && |names| > 1
    ensures names[0] == names[1]
  {
    VersionsAre(names);
    var vs := Versions(names).value;
    assert vs[1] in vs;
  }

  /** The list never has two: directories differ in their names, so two trees are two
      versions, which is refused. */
  lemma VendoredIsOne(names: seq<string>)
    requires forall i, j :: 0 <= i < j < |names| ==> names[i] != names[j]
    ensures VendoredSources(names).Some? <==> |names| == 1 && TreeVersion(names[0]).Some?
    ensures VendoredSources(names).Some? ==> VendoredSources(names).value == [TreeVersion(names[0]).value]
  {
    VersionsAre(names);
    if VendoredSources(names).Some? && |names| > 1 {
      TreesShareName(names);
    }
    if |names| == 1 {
      assert names[..0] == [];
    }
  }

  lemma {:induction false} NumeralsArePlain(v: string, n: nat)
    requires Numerals(v, n)
    ensures '#' !in v
    decreases |v|
  {
    var rest := TrimLeft(v, IsDigit);
    TrimmedAre(v, IsDigit, '#');
    if n > 1 {
      NumeralsArePlain(rest[1..], n - 1);
      assert rest == [rest[0]] + rest[1..];
    }
  }

  lemma {:induction false} TrimmedAre(s: string, drop: char -> bool, c: char)
    requires !drop(c)
    ensures c in s <==> c in TrimLeft(s, drop)
  {
    if s != [] && drop(s[0]) {
      TrimmedAre(s[1..], drop, c);
      assert s == [s[0]] + s[1..];
    }
  }

  function FuseComponents(trees: seq<string>, b: Bodies): seq<Component> {
    seq(|trees|, i requires 0 <= i < |trees| => Component(FusePurl(trees[i]), b.ofFuse(trees[i])))
  }

  function Others(files: seq<string>, pins: seq<Pin>, trees: seq<string>, zig: string, b: Bodies): seq<Component> {
    DebComponents(files, b) + Hub(pins, trees, zig, b)
  }

  function Hub(pins: seq<Pin>, trees: seq<string>, zig: string, b: Bodies): seq<Component> {
    PinComponents(pins, b) + (FuseComponents(trees, b) + [Component(ZigPurl(zig), b.ofZig(zig))])
  }

  /** The unsorted list: packages of the lock, debs, actions, vendored trees, Zig. */
  function Inventory(
      pypi: seq<Component>, files: seq<string>, pins: seq<Pin>, trees: seq<string>, zig: string, b: Bodies)
    : seq<Component>
  {
    pypi + Others(files, pins, trees, zig, b)
  }

  lemma OnePerPurlJoins(a: seq<Component>, b: seq<Component>)
    requires OnePerPurl(a) && OnePerPurl(b) && forall x, y :: x in a && y in b ==> x.purl != y.purl
    ensures OnePerPurl(a + b)
  {
  }

  lemma DebsOnePerPurl(files: seq<string>, b: Bodies)
    requires forall f :: f in files ==> OrdinaryDeb(f)
    ensures OnePerPurl(DebComponents(files, b))
  {
    var xs := DebComponents(files, b);
    forall x, y | x in xs && y in xs && x.purl == y.purl ensures x == y {
      var f :| f in files && x == DebComponent(f, b);
      var g :| g in files && y == DebComponent(g, b);
      assert OrdinaryDeb(f) && OrdinaryDeb(g);
      DebFileOfPurl(f, g, ParseDeb(f).value, ParseDeb(g).value);
    }
  }

  lemma PinsOnePerPurl(pins: seq<Pin>, b: Bodies)
    requires forall p :: p in pins ==> Pinned(p)
    ensures OnePerPurl(PinComponents(pins, b))
  {
    var xs := PinComponents(pins, b);
    forall x, y | x in xs && y in xs && x.purl == y.purl ensures x == y {
      var p :| p in pins && x == PinComponent(p, b);
      var q :| q in pins && y == PinComponent(q, b);
      assert Pinned(p) && Pinned(q);
      GithubPurlInjective(p, q);
    }
  }

  /** A tag is no commit: its text after the `@` would have to be one. */
  lemma TagIsNoPin(p: Pin, repo: string, tag: string)
    requires Pinned(p) && '@' !in repo && (exists c :: c in tag && !LowerHex(c) && c != '#') && '#' !in tag
    ensures GithubPurl(p) != "pkg:github/" + (repo + (['@'] + tag))
  {
    if GithubPurl(p) == "pkg:github/" + (repo + (['@'] + tag)) {
      RepositoryHasNoAt(p);
      Cancel("pkg:github/", Repository(Split(p.name)) + (['@'] + PurlTail(p)), repo + (['@'] + tag));
      SplitOnce(Repository(Split(p.name)), '@', PurlTail(p), repo, tag);
      CommitTail(p, tag);
    }
  }

  lemma CommitTail(p: Pin, tag: string)
    requires Pinned(p) && PurlTail(p) == tag && '#' !in tag
    ensures forall c :: c in tag ==> LowerHex(c)
  {
    var beyond := Beyond(Split(p.name), '#');
    if beyond != "" {
      HashInTail(p.digest, beyond);
    }
    assert tag == p.digest + beyond == p.digest;
  }

  lemma HashInTail(digest: string, beyond: string)
    requires beyond != "" && beyond[0] == '#'
    ensures '#' in digest + beyond
  {
    assert (digest + beyond)[|digest|] == '#';
  }

  /** The url says what kind of component it is. */
  lemma KindsApart(a: string, b: string, c: string)
    requires Led("pkg:pypi/", a) && Led("pkg:deb/ubuntu/", b) && Led("pkg:github/", c)
    ensures a != b && a != c && b != c
  {
    assert a[4] == 'p' && b[4] == 'd' && c[4] == 'g';
  }

  /** With unambiguous package urls and an ordinary version of Zig the inputs of
      `build_bom` give one component per url: only the lock itself could hold two. */
  lemma InventoryHasOnePerPurl(
      pypi: seq<Component>, files: seq<string>, pins: seq<Pin>, names: seq<string>, zig: string, b: Bodies)
    requires (forall f :: f in files ==> OrdinaryDeb(f)) && forall p :: p in pins ==> Pinned(p)
    requires forall x :: x in pypi ==> Led("pkg:pypi/", x.purl)
    requires (forall i, j :: 0 <= i < j < |names| ==> names[i] != names[j]) && VendoredSources(names).Some?
    requires '#' !in zig && '.' in zig
    ensures OnePerPurl(Inventory(pypi, files, pins, VendoredSources(names).value, zig, b)) <==> OnePerPurl(pypi)
  {
    VendoredIsOne(names);
    var fuse := TreeVersion(names[0]).value;
    NumeralsArePlain(fuse, 3);
    InventoryOfOneTree(pypi, files, pins, fuse, zig, b);
  }

  lemma InventoryOfOneTree(
      pypi: seq<Component>, files: seq<string>, pins: seq<Pin>, fuse: string, zig: string, b: Bodies)
    requires (forall f :: f in files ==> OrdinaryDeb(f)) && forall p :: p in pins ==> Pinned(p)
    requires forall x :: x in pypi ==> Led("pkg:pypi/", x.purl)
    requires '#' !in fuse && '#' !in zig && '.' in zig
    ensures OnePerPurl(Inventory(pypi, files, pins, [fuse], zig, b)) <==> OnePerPurl(pypi)
  {
    var rest := Others(files, pins, [fuse], zig, b);
    OthersOnePerPurl(files, pins, fuse, zig, b);
    assert Inventory(pypi, files, pins, [fuse], zig, b) == pypi + rest;
    forall x: Component, y: Component | x in pypi && y in rest ensures x.purl != y.purl {
      if Led("pkg:deb/ubuntu/", y.purl) {
        KindsApart(x.purl, y.purl, "pkg:github/");
      } else {
        KindsApart(x.purl, "pkg:deb/ubuntu/", y.purl);
      }
    }
    if OnePerPurl(pypi) {
      OnePerPurlJoins(pypi, rest);
    } else {
      var x, y :| x in pypi && y in pypi && x.purl == y.purl && x != y;
      assert x in pypi + rest && y in pypi + rest;
    }
  }

  lemma OthersOnePerPurl(files: seq<string>, pins: seq<Pin>, fuse: string, zig: string, b: Bodies)
    requires (forall f :: f in files ==> OrdinaryDeb(f)) && forall p :: p in pins ==> Pinned(p)
    requires '#' !in fuse && '#' !in zig && '.' in zig
    ensures OnePerPurl(Others(files, pins, [fuse], zig, b))
    ensures forall y :: y in Others(files, pins, [fuse], zig, b) ==>
            Led("pkg:deb/ubuntu/", y.purl) || Led("pkg:github/", y.purl)
  {
    var debs, hub := DebComponents(files, b), Hub(pins, [fuse], zig, b);
    DebsOnePerPurl(files, b);
    HubOnePerPurl(pins, fuse, zig, b);
    DebKinds(files, b);
    forall x: Component, y: Component | x in debs && y in hub ensures x.purl != y.purl {
      KindsApart("pkg:pypi/", x.purl, y.purl);
    }
    OnePerPurlJoins(debs, hub);
  }

  lemma HubOnePerPurl(pins: seq<Pin>, fuse: string, zig: string, b: Bodies)
    requires (forall p :: p in pins ==> Pinned(p)) && '#' !in fuse && '#' !in zig && '.' in zig
    ensures OnePerPurl(Hub(pins, [fuse], zig, b))
    ensures forall y :: y in Hub(pins, [fuse], zig, b) ==> Led("pkg:github/", y.purl)
  {
    var acts := PinComponents(pins, b);
    var f, z := FuseComponents([fuse], b), [Component(ZigPurl(zig), b.ofZig(zig))];
    assert f == [Component(FusePurl(fuse), b.ofFuse(fuse))];
    PinsOnePerPurl(pins, b);
    TagsApart(fuse, zig);
    OnePerPurlJoins(f, z);
    PinsMeetNoTag(pins, fuse, zig, b);
    OnePerPurlJoins(acts, f + z);
    GithubKinds(pins, fuse, zig, b);
  }

  lemma TagsApart(fuse: string, zig: string)
    ensures FusePurl(fuse) != ZigPurl(zig)
  {
    assert FusePurl(fuse)[11] == 'l' && ZigPurl(zig)[11] == 'z';
  }

  lemma FuseIsNoPin(p: Pin, fuse: string)
    requires Pinned(p) && '#' !in fuse
    ensures GithubPurl(p) != FusePurl(fuse)
  {
    var tag := "fuse-" + fuse;
    assert tag[1] == 'u' && !LowerHex('u') && tag[1] in tag;
    TagIsNoPin(p, "libfuse/libfuse", tag);
  }

  lemma ZigIsNoPin(p: Pin, zig: string)
    requires Pinned(p) && '#' !in zig && '.' in zig
    ensures GithubPurl(p) != ZigPurl(zig)
  {
    assert !LowerHex('.');
    TagIsNoPin(p, "ziglang/zig", zig);
  }

  lemma PinsMeetNoTag(pins: seq<Pin>, fuse: string, zig: string, b: Bodies)
    requires (forall p :: p in pins ==> Pinned(p)) && '#' !in fuse && '#' !in zig && '.' in zig
    ensures forall x :: x in PinComponents(pins, b) ==> x.purl != FusePurl(fuse) && x.purl != ZigPurl(zig)
  {
    forall x | x in PinComponents(pins, b) ensures x.purl != FusePurl(fuse) && x.purl != ZigPurl(zig) {
      var p :| p in pins && x == PinComponent(p, b);
      assert Pinned(p);
      FuseIsNoPin(p, fuse);
      ZigIsNoPin(p, zig);
    }
  }

  predicate Led(prefix: string, s: string) { |prefix| <= |s| && s == prefix + s[|prefix|..] }

  lemma Leads(prefix: string, rest: string)
    ensures Led(prefix, prefix + rest)
  {
  }

  lemma GithubKinds(pins: seq<Pin>, fuse: string, zig: string, b: Bodies)
    requires forall p :: p in pins ==> Pinned(p)
    ensures forall x :: x in PinComponents(pins, b) ==> Led("pkg:github/", x.purl)
    ensures Led("pkg:github/", FusePurl(fuse)) && Led("pkg:github/", ZigPurl(zig))
  {
    Leads("pkg:github/", "libfuse/libfuse" + (['@'] + ("fuse-" + fuse)));
    Leads("pkg:github/", "ziglang/zig" + (['@'] + zig));
    forall x | x in PinComponents(pins, b) ensures Led("pkg:github/", x.purl) {
      var p :| p in pins && x == PinComponent(p, b);
      assert Pinned(p);
      Leads("pkg:github/", Repository(Split(p.name)) + (['@'] + PurlTail(p)));
    }
  }

  lemma DebKinds(files: seq<string>, b: Bodies)
    requires forall f :: f in files ==> OrdinaryDeb(f)
    ensures forall x :: x in DebComponents(files, b) ==> Led("pkg:deb/ubuntu/", x.purl)
  {
    forall x | x in DebComponents(files, b) ensures Led("pkg:deb/ubuntu/", x.purl) {
      var f :| f in files && x == DebComponent(f, b);
      assert OrdinaryDeb(f);
      var d := ParseDeb(f).value;
      Leads("pkg:deb/ubuntu/", DebTail(d));
    }
  }

  /** The list that is written does not depend on the order its inputs came in
      exactly when no two different components share a purl. */
  lemma BomIgnoresInputOrder(xs: seq<Component>)
    ensures OnePerPurl(xs) <==> forall ys :: multiset(ys) == multiset(xs) ==> SortByPurl(ys) == SortByPurl(xs)
  {
    if OnePerPurl(xs) {
      forall ys | multiset(ys) == multiset(xs) ensures SortByPurl(ys) == SortByPurl(xs) {
        SortKeeps(xs);
        SortKeeps(ys);
        forall x ensures x in xs <==> x in SortByPurl(xs) {
          assert x in multiset(xs) <==> x in multiset(SortByPurl(xs));
        }
        SortedUnique(SortByPurl(xs), SortByPurl(ys));
      }
    } else {
      var x, y :| x in xs && y in xs && x.purl == y.purl && x != y;
      var a, b := Swapped(xs, x, y);
      assert SortByPurl(a) != SortByPurl(xs) || SortByPurl(b) != SortByPurl(xs);
    }
  }

  function Without(xs: seq<Component>, i: nat): seq<Component>
    requires i < |xs|
  {
    xs[..i] + xs[i + 1..]
  }

  lemma TakenOut(xs: seq<Component>, i: nat)
    requires i < |xs|
    ensures multiset([xs[i]] + Without(xs, i)) == multiset(xs)
  {
    assert xs == xs[..i] + ([xs[i]] + xs[i + 1..]);
  }

  /** Two orders of one input that are sorted differently. */
  lemma Swapped(xs: seq<Component>, x: Component, y: Component) returns (a: seq<Component>, b: seq<Component>)
    requires x in xs && y in xs && x.purl == y.purl && x != y
    ensures multiset(a) == multiset(xs) == multiset(b) && SortByPurl(a) != SortByPurl(b)
  {
    var i: nat :| i < |xs| && xs[i] == x;
    TakenOut(xs, i);
    var some := Without(xs, i);
    StaysIn(xs, i, y);
    var j: nat :| j < |some| && some[j] == y;
    TakenOut(some, j);
    var rest := Without(some, j);
    a, b := [x, y] + rest, [y, x] + rest;
    TwoTakenOut(xs, x, y, some, rest);
    SortsApart(x, y, rest);
  }

  lemma TwoTakenOut(xs: seq<Component>, x: Component, y: Component, some: seq<Component>, rest: seq<Component>)
    requires multiset([x] + some) == multiset(xs) && multiset([y] + rest) == multiset(some)
    ensures multiset([x, y] + rest) == multiset(xs) == multiset([y, x] + rest)
  {
    assert [x, y] + rest == [x] + ([y] + rest);
    assert multiset([x] + some) == multiset{x} + multiset(some);
    assert multiset([y, x] + rest) == multiset{x, y} + multiset(rest);
  }

  lemma StaysIn(xs: seq<Component>, i: nat, y: Component)
    requires i < |xs| && y in xs && y != xs[i]
    ensures y in Without(xs, i)
  {
    var j: nat :| j < |xs| && xs[j] == y;
    assert Without(xs, i)[if j < i then j else j - 1] == y;
  }

  lemma SortsApart(x: Component, y: Component, rest: seq<Component>)
    requires x.purl == y.purl && x != y
    ensures SortByPurl([x, y] + rest) != SortByPurl([y, x] + rest)
  {
    SortIsStable([x, y] + rest, x.purl);
    SortIsStable([y, x] + rest, x.purl);
    PairFirst(x, y, rest);
    PairFirst(y, x, rest);
    assert ([x, y] + Same(rest, x.purl))[0] != ([y, x] + Same(rest, x.purl))[0];
  }

  lemma PairFirst(x: Component, y: Component, rest: seq<Component>)
    requires x.purl == y.purl
    ensures Same([x, y] + rest, x.purl) == [x, y] + Same(rest, x.purl)
  {
    FirstSame([x, y], rest, x.purl);
    SameNext([x], y, x.purl);
    SameNext([], x, x.purl);
    assert [] + [x] == [x] && [x] + [y] == [x, y];
  }

  lemma {:induction false} FirstSame(a: seq<Component>, b: seq<Component>, purl: string)
    ensures Same(a + b, purl) == Same(a, purl) + Same(b, purl)
    decreases |b|
  {
    if b == [] {
      assert a + b == a;
    } else {
      var init, x := b[..|b| - 1], b[|b| - 1];
      FirstSame(a, init, purl);
      assert a + b == a + init + [x];
      SameNext(a + init, x, purl);
    }
  }
}
