/** Paths of scripts/dr_point_restore.sh: the `case` patterns that refuse an
    escaping `--copy` path and an overlapping clone mountpoint, against what the
    kernel makes of the same strings. */
module PathGate {
  import opened Pieces
  import opened Text

  type Path = seq<string>

  function Split(s: string): (parts: seq<string>)
    ensures parts != []
  {
    match Find(s, '/')
    case None => [s]
    case Some(k) => [s[..k]] + Split(s[k + 1..])
  }

  function Enter(at: Path, c: string): Path {
    if c == "" || c == "." then at
    else if c == ".." then (if at == [] then [] else at[..|at| - 1])
    else at + [c]
  }

  /** Path resolution, one component at a time, without symlinks. */
  function Walk(at: Path, parts: seq<string>): Path
    decreases |parts|
  {
    if parts == [] then at else Walk(Enter(at, parts[0]), parts[1..])
  }

  function Resolve(s: string): Path { Walk([], Split(s)) }

  /** `${LIVE}/${rel}`. */
  function Below(root: string, rel: string): string { root + ("/" + rel) }

  predicate SlashDotsAt(s: string, k: int) { 0 <= k && k + 4 <= |s| && s[k..k + 4] == "/../" }

  /** The refused `--copy` paths. */
  predicate Escapes(rel: string) {
    || rel == ".."
    || "../" <= rel
    || (exists k :: 0 <= k < |rel| && SlashDotsAt(rel, k))
    || (|rel| >= 3 && rel[|rel| - 3..] == "/..")
  }

  predicate Accepted(rel: string) { rel != "" && rel[0] != '/' && !Escapes(rel) && '\n' !in rel }

  /** `case "${a}" in "${b}" | "${b}/"*`. */
  predicate AtOrUnder(a: string, b: string) { a == b || b + "/" <= a }

  predicate Overlap(live: string, mp: string) { AtOrUnder(mp, live) || AtOrUnder(live, mp) }

  /* ---- what the patterns mean ---- */

  /** A `..` component, seen in the text. */
  predicate DotsAt(s: string, i: nat) {
    && i + 2 <= |s| && s[i] == '.' && s[i + 1] == '.'
    && (i == 0 || s[i - 1] == '/') && (i + 2 == |s| || s[i + 2] == '/')
  }

  lemma EscapesIsDots(s: string)
    ensures Escapes(s) <==> exists i :: 0 <= i && DotsAt(s, i)
  {
    if s == ".." || "../" <= s {
      assert DotsAt(s, 0);
    }
    if k :| 0 <= k < |s| && SlashDotsAt(s, k) {
      assert s[k..k + 4][0] == s[k] && s[k..k + 4][1] == s[k + 1] && s[k..k + 4][2] == s[k + 2] &&
          s[k..k + 4][3] == s[k + 3];
      assert DotsAt(s, k + 1);
    }
    if |s| >= 3 && s[|s| - 3..] == "/.." {
      var t := s[|s| - 3..];
      assert t[0] == s[|s| - 3] && t[1] == s[|s| - 2] && t[2] == s[|s| - 1];
      assert DotsAt(s, |s| - 2);
    }
    if i :| 0 <= i && DotsAt(s, i) {
      DotsEscape(s, i);
    }
  }

  lemma DotsEscape(s: string, i: nat)
    requires DotsAt(s, i)
    ensures Escapes(s)
  {
    if i == 0 {
      assert |s| == 2 ==> s == "..";
      assert |s| > 2 ==> s[..3] == "../";
    } else if i + 2 == |s| {
      assert s[|s| - 3..] == "/..";
    } else {
      assert SlashDotsAt(s, i - 1);
    }
  }

  ghost predicate HasDots(s: string) { exists i :: 0 <= i && DotsAt(s, i) }

  lemma {:induction false} DotsAreComponents(s: string)
    ensures ".." in Split(s) <==> HasDots(s)
    decreases |s|
  {
    match Find(s, '/')
    case None => DotsAlone(s);
    case Some(k) =>
      DotsAreComponents(s[k + 1..]);
      assert Split(s) == [s[..k]] + Split(s[k + 1..]);
      DotsSplit(s, k);
  }

  lemma DotsAlone(s: string)
    requires '/' !in s
    ensures s == ".." <==> HasDots(s)
  {
    if s == ".." {
      assert DotsAt(s, 0);
    }
    if i :| 0 <= i && DotsAt(s, i) {
      assert forall j :: 0 <= j < |s| ==> s[j] in s;
      assert s == "..";
    }
  }

  lemma DotsSplit(s: string, k: nat)
    requires k < |s| && s[k] == '/' && '/' !in s[..k]
    ensures HasDots(s) <==> s[..k] == ".." || HasDots(s[k + 1..])
  {
    if s[..k] == ".." {
      assert s[0] == s[..k][0] && s[1] == s[..k][1];
      assert DotsAt(s, 0);
    }
    var t := s[k + 1..];
    if i :| 0 <= i && DotsAt(t, i) {
      assert DotsAt(s, k + 1 + i);
    }
    if i :| 0 <= i && DotsAt(s, i) {
      DotsInTail(s, k, i);
    }
  }

  lemma DotsInTail(s: string, k: nat, i: nat)
    requires k < |s| && s[k] == '/' && '/' !in s[..k] && DotsAt(s, i)
    ensures s[..k] == ".." || DotsAt(s[k + 1..], i - k - 1)
  {
    assert forall j :: 0 <= j < k ==> s[j] == s[..k][j] != '/';
    if i <= k {
      assert s[..2] == "..";
    }
  }

  /** The four patterns refuse exactly the paths with a `..` component. */
  lemma EscapesExact(rel: string)
    ensures Escapes(rel) <==> ".." in Split(rel)
  {
    EscapesIsDots(rel);
    DotsAreComponents(rel);
  }

  lemma SplitAtSlash(c: string, t: string)
    requires '/' !in c
    ensures Split(c) == [c] && Split(c + ("/" + t)) == [c] + Split(t)
  {
    var s := c + ("/" + t);
    assert s == c + ['/'] + t;
    FindSplit(c, '/', t);
    assert s[..|c|] == c && s[|c| + 1..] == t;
  }

  lemma {:induction false} SplitJoins(a: string, b: string)
    ensures Split(a + ("/" + b)) == Split(a) + Split(b)
    decreases |a|
  {
    match Find(a, '/')
    case None => SplitAtSlash(a, b);
    case Some(k) =>
      SplitsAt(a, b, k);
      SplitJoins(a[k + 1..], b);
      Associates([a[..k]], Split(a[k + 1..]), Split(b));
  }

  lemma Associates(p: Path, q: Path, r: Path)
    ensures p + (q + r) == (p + q) + r
  {
  }

  lemma SplitsAt(a: string, b: string, k: nat)
    requires Find(a, '/') == Some(k)
    ensures Split(a + ("/" + b)) == [a[..k]] + Split(a[k + 1..] + ("/" + b))
  {
    var s := a + ("/" + b);
    assert s[..k] == a[..k];
    FindUnique(s, '/', k);
    assert s[k + 1..] == a[k + 1..] + ("/" + b);
  }

  lemma {:induction false} WalkJoins(at: Path, p: seq<string>, q: seq<string>)
    ensures Walk(at, p + q) == Walk(Walk(at, p), q)
    decreases |p|
  {
    if p == [] {
      assert p + q == q;
    } else {
      assert (p + q)[1..] == p[1..] + q;
      WalkJoins(Enter(at, p[0]), p[1..], q);
    }
  }

  /** Without `..` a walk only descends, and by the same steps from anywhere. */
  lemma FirstComponent(s: string)
    ensures Split(s)[0] == "" <==> s == "" || s[0] == '/'
  {
    match Find(s, '/')
    case None =>
    case Some(k) => assert s[..k] == "" <==> k == 0;
  }

  /** A `--copy` path is accepted exactly if its text is one line, its first component is
      a name, so that it is relative and not empty, and none goes up. */
  lemma AcceptedExact(rel: string)
    ensures Accepted(rel) <==> '\n' !in rel && Split(rel)[0] != "" && ".." !in Split(rel)
  {
    EscapesExact(rel);
    FirstComponent(rel);
  }

  /** What one more component does to a path. */
  lemma OneMoreComponent(s: string, c: string)
    requires '/' !in c
    ensures var p := Resolve(s);
      Resolve(s + ("/" + c)) ==
      if c == "" || c == "." || (c == ".." && p == []) then p else if c == ".." then p[..|p| - 1] else p + [c]
  {
    SplitJoins(s, c);
    WalkJoins([], Split(s), Split(c));
    var p := Resolve(s);
    assert Split(c) == [c];
    assert [c][1..] == [];
    assert Walk(p, [c]) == Walk(Enter(p, c), []);
  }

  lemma {:induction false} WalkDescends(at: Path, parts: seq<string>)
    requires ".." !in parts
    ensures Walk(at, parts) == at + Walk([], parts)
    decreases |parts|
  {
    if parts != [] {
      var p, rest := parts[0], parts[1..];
      assert p in parts && forall c :: c in rest ==> c in parts;
      EnterDescends(at, p);
      WalkDescends(Enter(at, p), rest);
      WalkDescends(Enter([], p), rest);
      Associates(at, Enter([], p), Walk([], rest));
    }
  }

  lemma EnterDescends(at: Path, c: string)
    requires c != ".."
    ensures Enter(at, c) == at + Enter([], c)
  {
    assert at + [] == at && [] + [c] == [c];
  }

  /** An accepted path names a file below its root, by the root's own path
      followed by the path's. */
  lemma BelowResolves(root: string, rel: string)
    requires Accepted(rel)
    ensures Resolve(Below(root, rel)) == Resolve(root) + Resolve(rel)
  {
    SplitJoins(root, rel);
    WalkJoins([], Split(root), Split(rel));
    EscapesExact(rel);
    WalkDescends(Resolve(root), Split(rel));
  }

  /* ---- the overlap gate ---- */

  predicate Plain(c: string) { c != "" && c != "." && c != ".." && '/' !in c }

  predicate PlainPath(p: Path) { forall c :: c in p ==> Plain(c) }

  /** The text of a path in its one normal form. */
  function Spell(p: Path): string { if p == [] then "" else "/" + (p[0] + Spell(p[1..])) }

  /** A path written without trailing slash, `//`, `.` or `..`. */
  ghost predicate Canonical(s: string) { s != "" && exists p: Path :: PlainPath(p) && s == Spell(p) }

  lemma {:induction false} SplitSpell(c: string, rest: Path)
    requires Plain(c) && PlainPath(rest)
    ensures Split(c + Spell(rest)) == [c] + rest
    decreases |rest|
  {
    if rest == [] {
      assert c + Spell(rest) == c;
      SplitAtSlash(c, "");
    } else {
      assert rest[0] in rest;
      SplitAtSlash(c, rest[0] + Spell(rest[1..]));
      SplitSpell(rest[0], rest[1..]);
      assert [rest[0]] + rest[1..] == rest;
    }
  }

  lemma {:induction false} WalkPlain(at: Path, p: Path)
    requires PlainPath(p)
    ensures Walk(at, p) == at + p
    decreases |p|
  {
    if p != [] {
      assert p[0] in p;
      WalkPlain(at + [p[0]], p[1..]);
    }
  }

  lemma SplitEmpty()
    ensures Split("") == [""]
  {
  }

  lemma SplitLeading(t: string)
    ensures Split("/" + t) == [""] + Split(t)
  {
    SplitEmpty();
    SplitJoins("", t);
    assert "" + ("/" + t) == "/" + t;
  }

  lemma SplitSpelling(p: Path)
    requires PlainPath(p)
    ensures Split(Spell(p)) == [""] + p
  {
    if p == [] {
      SplitEmpty();
    } else {
      assert p[0] in p;
      SplitSpell(p[0], p[1..]);
      SplitLeading(p[0] + Spell(p[1..]));
      assert [p[0]] + p[1..] == p;
    }
  }

  lemma SpellResolves(p: Path)
    requires PlainPath(p)
    ensures Resolve(Spell(p)) == p
  {
    SplitSpelling(p);
    assert ([""] + p)[1..] == p;
    WalkPlain([], p);
  }

  lemma {:induction false} SpellJoins(p: Path, q: Path)
    ensures Spell(p + q) == Spell(p) + Spell(q)
  {
    if p == [] {
      assert p + q == q;
    } else {
      assert (p + q)[1..] == p[1..] + q;
      SpellJoins(p[1..], q);
    }
  }

  lemma {:induction false} PrefixInSpelling(p: Path, q: Path)
    requires PlainPath(p) && PlainPath(q) && Spell(p) + "/" <= Spell(q)
    ensures p <= q
    decreases |p|
  {
    if p != [] {
      assert q != [] && p[0] in p && q[0] in q;
      var rest := Spell(p[1..]) + "/";
      SameHead(p[0], rest, q[0], q[1..]) by {
        assert Spell(p) + "/" == "/" + (p[0] + rest);
        assert (Spell(p) + "/")[1..] == p[0] + rest && Spell(q)[1..] == q[0] + Spell(q[1..]);
      }
      PrefixInSpelling(p[1..], q[1..]);
      assert p == [p[0]] + p[1..] && q == [q[0]] + q[1..];
    }
  }

  /** Up to the next slash, a prefix has the same component. */
  lemma SameHead(c: string, rest: string, d: string, tail: Path)
    requires '/' !in c && '/' !in d && rest != "" && rest[0] == '/'
    requires c + rest <= d + Spell(tail)
    ensures c == d && rest <= Spell(tail)
  {
    var s, t := c + rest, d + Spell(tail);
    assert forall j :: 0 <= j < |s| ==> s[j] == t[j];
    assert t[..|c|] == s[..|c|] == c && t[|c|] == s[|c|] == '/';
    FindUnique(t, '/', |c|);
    FirstSlash(d, tail);
    assert d == t[..|c|];
    assert rest == s[|c|..] && Spell(tail) == t[|c|..];
  }

  lemma FirstSlash(c: string, rest: Path)
    requires '/' !in c
    ensures Find(c + Spell(rest), '/') == if rest == [] then None else Some(|c|)
  {
    var s := c + Spell(rest);
    if rest == [] {
      assert s == c;
    } else {
      assert s[..|c|] == c;
      FindUnique(s, '/', |c|);
    }
  }

  /** On spelled-out paths the text pattern is the tree's order. */
  lemma SpelledUnder(p: Path, q: Path)
    requires PlainPath(p) && PlainPath(q)
    ensures AtOrUnder(Spell(p), Spell(q)) <==> q <= p
  {
    if Spell(q) + "/" <= Spell(p) {
      PrefixInSpelling(q, p);
    }
    if Spell(p) == Spell(q) {
      SpellResolves(p);
      SpellResolves(q);
    }
    if q <= p {
      var r := p[|q|..];
      assert p == q + r;
      SpellJoins(q, r);
    }
  }

  /** For paths in normal form the text patterns are right: `a` is at or under
      `b` as text exactly when it is in the tree. */
  lemma AtOrUnderExact(a: string, b: string)
    requires Canonical(a) && Canonical(b)
    ensures AtOrUnder(a, b) <==> Resolve(b) <= Resolve(a)
  {
    var p: Path :| PlainPath(p) && a == Spell(p);
    var q: Path :| PlainPath(q) && b == Spell(q);
    SpellResolves(p);
    SpellResolves(q);
    SpelledUnder(p, q);
  }

  /** Neither tree holds the other. */
  predicate Apart(live: string, mp: string) {
    !(Resolve(live) <= Resolve(mp)) && !(Resolve(mp) <= Resolve(live))
  }

  /** For paths in normal form the gate is right. */
  lemma OverlapExact(live: string, mp: string)
    requires Canonical(live) && Canonical(mp)
    ensures Overlap(live, mp) <==> !Apart(live, mp)
  {
    AtOrUnderExact(mp, live);
    AtOrUnderExact(live, mp);
  }

  lemma {:induction false} SplitHasNoSlash(s: string)
    ensures forall c :: c in Split(s) ==> '/' !in c
    decreases |s|
  {
    match Find(s, '/')
    case None =>
    case Some(k) => SplitHasNoSlash(s[k + 1..]);
  }

  lemma {:induction false} WalkIsPlain(at: Path, parts: seq<string>)
    requires PlainPath(at) && forall c :: c in parts ==> '/' !in c
    ensures PlainPath(Walk(at, parts))
    decreases |parts|
  {
    if parts != [] {
      assert parts[0] in parts;
      WalkIsPlain(Enter(at, parts[0]), parts[1..]);
    }
  }

  lemma ResolveIsPlain(s: string)
    ensures PlainPath(Resolve(s))
  {
    SplitHasNoSlash(s);
    WalkIsPlain([], Split(s));
  }

  /** Comparing the normal forms instead of the given text would be right for
      every spelling, the root included. */
  lemma NormalFormGate(live: string, mp: string)
    ensures Overlap(Spell(Resolve(live)), Spell(Resolve(mp))) <==> !Apart(live, mp)
  {
    ResolveIsPlain(live);
    ResolveIsPlain(mp);
    SpelledUnder(Resolve(live), Resolve(mp));
    SpelledUnder(Resolve(mp), Resolve(live));
  }

  /** What precedes a slash of a spelled-out path is spelled out itself. */
  lemma {:induction false} PrefixIsSpelled(s: string, t: Path) returns (q: Path)
    requires PlainPath(t) && s + "/" <= Spell(t)
    ensures PlainPath(q) && s == Spell(q)
    decreases |t|
  {
    if s == "" {
      q := [];
    } else {
      assert t != [] && t[0] in t;
      var tail := TailAfterHead(s, t);
      var rest := PrefixIsSpelled(tail, t[1..]);
      q := [t[0]] + rest;
      assert q[1..] == rest;
    }
  }

  lemma TailAfterHead(s: string, t: Path) returns (tail: string)
    requires t != [] && Plain(t[0]) && s != "" && s + "/" <= Spell(t)
    ensures s == "/" + (t[0] + tail) && tail + "/" <= Spell(t[1..])
  {
    var u := s[1..] + "/";
    DropLead(s, t[0] + Spell(t[1..]));
    var k := FirstSlashOf(u);
    SameHead(u[..k], u[k..], t[0], t[1..]) by { assert u[..k] + u[k..] == u; }
    tail := u[k..|u| - 1];
    assert tail + "/" == u[k..];
    assert s[1..] == u[..|u| - 1] == u[..k] + tail;
    assert s == [s[0]] + s[1..];
  }

  lemma DropLead(s: string, all: string)
    requires s != "" && s + "/" <= "/" + all
    ensures s[0] == '/' && s[1..] + "/" <= all
  {
    assert (s + "/")[0] == ("/" + all)[0];
    assert (s + "/")[1..] == s[1..] + "/" && ("/" + all)[1..] == all;
  }

  lemma FirstSlashOf(u: string) returns (k: nat)
    requires u != "" && u[|u| - 1] == '/'
    ensures k < |u| && u[k] == '/' && '/' !in u[..k]
  {
    k := 0;
    while u[k] != '/'
      invariant k < |u| && '/' !in u[..k]
      decreases |u| - k
    {
      assert u[..k + 1] == u[..k] + [u[k]];
      k := k + 1;
    }
  }

  /** Against mountpoints in normal form, the gate is right for all of them exactly
      when the other path is in normal form too, or empty. */
  lemma GateExact(s: string)
    ensures (forall t :: Canonical(t) ==> (Overlap(s, t) <==> !Apart(s, t))) <==> Canonical(s) || s == ""
  {
    if Canonical(s) {
      forall t | Canonical(t) ensures Overlap(s, t) <==> !Apart(s, t) {
        OverlapExact(s, t);
      }
    } else if s == "" {
      forall t | Canonical(t) ensures Overlap(s, t) && !Apart(s, t) {
        SplitEmpty();
        var p: Path :| PlainPath(p) && t == Spell(p);
        assert "" + "/" <= t;
      }
    } else {
      var t := SlipsThrough(s);
    }
  }

  /** Any other spelling lets a clone directly inside it through. */
  lemma SlipsThrough(s: string) returns (t: string)
    requires !Canonical(s) && s != ""
    ensures Canonical(t) && Resolve(s) <= Resolve(t) && !Apart(s, t) && !Overlap(s, t) && !Overlap(t, s)
  {
    var p := Resolve(s);
    var c: string := seq(|s| + 1, _ => 'a');
    ResolveIsPlain(s);
    LongName(c);
    t := Spell(p + [c]);
    SpellResolves(p + [c]);
    SpellJoins(p, [c]);
    assert |t| > |s|;
    if s + "/" <= t {
      var q := PrefixIsSpelled(s, p + [c]);
      assert false;
    }
    assert t == Spell(p + [c]);
  }

  lemma LongName(c: string)
    requires |c| > 1 && forall j :: 0 <= j < |c| ==> c[j] == 'a'
    ensures Plain(c) && |Spell([c])| > |c|
  {
    assert [c][1..] == [];
    assert c[0] == 'a';
  }

  /** Apart trees share no path, so restoring one never writes the other. */
  lemma ApartTreesShareNothing(live: string, mp: string, r: Path, t: Path)
    requires Apart(live, mp)
    ensures Resolve(live) + r != Resolve(mp) + t
  {
    if Resolve(live) + r == Resolve(mp) + t {
      Comparable(Resolve(live), r, Resolve(mp), t);
    }
  }

  lemma Comparable(l: Path, r: Path, m: Path, t: Path)
    requires l + r == m + t
    ensures l <= m || m <= l
  {
    var all := l + r;
    assert all[..|l|] == l && all[..|m|] == m;
  }

  /** Not so when the live export is spelled with a trailing slash: the gate lets
      a clone directly inside it through. */
  lemma TrailingSlashSlipsThrough(p: Path, c: string)
    requires PlainPath(p) && Plain(c)
    ensures var live, mp := Spell(p) + "/", Spell(p + [c]);
      !Overlap(live, mp) && Resolve(live) == p && Resolve(mp) == p + [c] && !Apart(live, mp)
  {
    var live, mp := Spell(p) + "/", Spell(p + [c]);
    SpellResolves(p);
    SpellResolves(p + [c]);
    SlashIsNothing(Spell(p));
    assert Spell(p) + ("/" + "") == live;
    assert p <= p + [c];
    SlashEscapesGate(p, c);
  }

  lemma SlashEscapesGate(p: Path, c: string)
    requires Plain(c)
    ensures !Overlap(Spell(p) + "/", Spell(p + [c]))
  {
    SpellJoins(p, [c]);
    assert Spell([c]) == "/" + c by { assert [c][1..] == []; }
    assert c[0] in c;
    SlashDiffers(Spell(p), c);
  }

  lemma SlashDiffers(s: string, c: string)
    requires c != "" && c[0] != '/'
    ensures !Overlap(s + "/", s + ("/" + c))
  {
    var live, mp, k := s + "/", s + ("/" + c), |s|;
    assert mp[k + 1] == c[0] && (live + "/")[k + 1] == '/';
  }

  lemma SlashIsNothing(s: string)
    ensures Resolve(s + ("/" + "")) == Resolve(s)
  {
    SplitJoins(s, "");
    SplitEmpty();
    WalkJoins([], Split(s), [""]);
  }
}
