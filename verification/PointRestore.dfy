/** A run of scripts/dr_point_restore.sh over the file trees it touches. Every
    command may fail, and what a failing copy leaves behind is arbitrary. */
module PointRestore {
  import opened Pieces
  import opened PathGate
  import opened Text

  type Bytes = seq<Byte>

  /** A dataset's content, by path under its root. */
  datatype Tree = Tree(files: map<Path, Bytes>, dirs: set<Path>)

  datatype Config = Config(dataset: string, live: string, mp: string, snapshot: string)

  /** One `cp` and `sync -f`: whether each works, and what a failed copy left. */
  datatype Step = Step(copied: bool, left: Bytes, flushed: bool)

  /** What the commands outside the loop answer. */
  datatype Weather = Weather(cloneExists: bool, preserved: bool, cloned: bool, mounted: bool)

  datatype Exit = Done | Died

  /** `-f`: a trailing slash or dot asks for a directory. */
  predicate NamesFile(s: string) { var last := Split(s)[|Split(s)| - 1]; last != "" && last != "." }

  /** `${dst%/`*`}`: up to the last slash. */
  function Parent(s: string): string {
    if s == "" || s[|s| - 1] == '/' then (if s == "" then s else s[..|s| - 1]) else Parent(s[..|s| - 1])
  }

  /** Where `cp -a src dst` writes: into an existing directory, under the name
      of the source. */
  function Target(dst: Path, dirs: set<Path>): Path {
    if dst in dirs && dst != [] then dst + [dst[|dst| - 1]] else dst
  }

  predicate SameAt(was: map<Path, Bytes>, now: map<Path, Bytes>, p: Path) {
    (p in was <==> p in now) && (p in was ==> was[p] == now[p])
  }

  /** Paths the copies may write. A directory at the target stops `cp`. */
  predicate Written(live: string, copies: seq<string>, dirs: set<Path>, p: Path) {
    p !in dirs && exists rel :: rel in copies && p == Target(Resolve(live) + Resolve(rel), dirs)
  }

  predicate Listed(live: string, copies: seq<string>, p: Path) {
    exists rel :: rel in copies && p == Resolve(live) + Resolve(rel)
  }

  /** The files below `root`, as a snapshot records them. */
  ghost predicate Records(t: Tree, root: Path, files: map<Path, Bytes>) {
    forall r: Path {:trigger r in t.files} ::
      (r in t.files <==> root + r in files) && (r in t.files ==> t.files[r] == files[root + r])
  }

  /** `*"@"*"/"*"@"*`. */
  predicate ChildDataset(s: string) {
    exists i, j :: 0 <= i < j < |s| && s[i] == '@' && s[j] == '/' && '@' in s[j..]
  }

  predicate SlashBetween(s: string, a: string, b: string, c: string, d: string) {
    s == a + ("@" + (b + ("/" + (c + ("@" + d)))))
  }

  lemma CutAt(s: string, k: nat, c: char)
    requires k < |s| && s[k] == c
    ensures s == s[..k] + ([c] + s[k + 1..])
  {
  }

  lemma CutFrom(s: string, from: nat, k: nat, c: char)
    requires from <= k < |s| && s[k] == c
    ensures s[from..] == s[from..k] + ([c] + s[k + 1..])
  {
  }

  lemma CutsThrice(s: string, i: nat, j: nat, k: nat)
    requires i < j < k < |s| && s[i] == '@' && s[j] == '/' && s[k] == '@'
    ensures SlashBetween(s, s[..i], s[i + 1..j], s[j + 1..k], s[k + 1..])
  {
    CutAt(s, i, '@');
    CutFrom(s, i + 1, j, '/');
    CutFrom(s, j + 1, k, '@');
  }

  /** It matches the texts with a slash between two at signs ... */
  lemma HasBetween(s: string, a: string, b: string, c: string, d: string)
    requires SlashBetween(s, a, b, c, d)
    ensures ChildDataset(s)
  {
    var i, j := |a|, |a| + 1 + |b|;
    var rest := "/" + (c + ("@" + d));
    assert s[i] == '@' && s[j..] == rest && s[j] == '/';
    assert rest[1 + |c|] == '@';
  }

  /** ... and no other. */
  lemma OnlyBetween(s: string) returns (i: nat, j: nat, k: nat)
    requires ChildDataset(s)
    ensures i < j < k < |s| && SlashBetween(s, s[..i], s[i + 1..j], s[j + 1..k], s[k + 1..])
  {
    i, j :| 0 <= i < j < |s| && s[i] == '@' && s[j] == '/' && '@' in s[j..];
    var n: nat :| n < |s[j..]| && s[j..][n] == '@';
    k := j + n;
    assert s[j..][n] == s[k];
    CutsThrice(s, i, j, k);
  }

  /** A listed path that is a directory of the live tree, with room in it for a file
      of its name that is not listed itself. */
  predicate Stray(live: string, copies: seq<string>, dirs: set<Path>, rel: string) {
    var dst := Resolve(live) + Resolve(rel);
    rel in copies && dst in dirs && Target(dst, dirs) !in dirs && !Listed(live, copies, Target(dst, dirs))
  }

  /** Only listed paths may be written exactly when there is no such path; with no
      listed path a live directory, they are exactly the listed ones. */
  lemma WrittenIsListed(live: string, copies: seq<string>, dirs: set<Path>)
    ensures (forall p :: Written(live, copies, dirs, p) ==> Listed(live, copies, p)) <==>
            (forall rel :: !Stray(live, copies, dirs, rel))
    ensures (forall rel :: rel in copies ==> Resolve(live) + Resolve(rel) !in dirs) ==>
              forall p :: Written(live, copies, dirs, p) <==> Listed(live, copies, p)
  {
    if rel :| Stray(live, copies, dirs, rel) {
      assert Written(live, copies, dirs, Target(Resolve(live) + Resolve(rel), dirs));
    }
    if p :| Written(live, copies, dirs, p) && !Listed(live, copies, p) {
      var rel :| rel in copies && p == Target(Resolve(live) + Resolve(rel), dirs);
      assert Resolve(live) + Resolve(rel) in dirs;
      assert Stray(live, copies, dirs, rel);
    }
    if forall rel :: rel in copies ==> Resolve(live) + Resolve(rel) !in dirs {
      forall p | Listed(live, copies, p) ensures Written(live, copies, dirs, p) {
        var rel :| rel in copies && p == Resolve(live) + Resolve(rel);
        assert p == Target(Resolve(live) + Resolve(rel), dirs);
      }
    }
  }

  /** One round of the copy loop. */
  function Copied(cfg: Config, rel: string, step: Step, files: map<Path, Bytes>, dirs: set<Path>)
    : (Exit, map<Path, Bytes>)
  {
    var src, dst := Resolve(Below(cfg.mp, rel)), Resolve(Below(cfg.live, rel));
    if !NamesFile(Below(cfg.mp, rel)) || src !in files || Resolve(Parent(Below(cfg.live, rel))) !in dirs
       || Target(dst, dirs) in dirs then (Died, files)
    else
      var now := files[Target(dst, dirs) := if step.copied then files[src] else step.left];
      (if step.copied && step.flushed && dst in now && dst !in dirs && now[dst] == now[src] then Done else Died, now)
  }

  /** The copy starts: source and parent directory passed their tests. */
  predicate Starts(cfg: Config, rel: string, files: map<Path, Bytes>, dirs: set<Path>) {
    && NamesFile(Below(cfg.mp, rel)) && Resolve(Below(cfg.mp, rel)) in files
    && Resolve(Parent(Below(cfg.live, rel))) in dirs
  }

  /** A round that starts writes its target, unless a directory is there, and nothing
      else. */
  lemma RoundWrites(cfg: Config, rel: string, step: Step, files: map<Path, Bytes>, dirs: set<Path>, p: Path)
    requires !SameAt(files, Copied(cfg, rel, step, files, dirs).1, p)
    ensures Starts(cfg, rel, files, dirs)
    ensures var at := Target(Resolve(Below(cfg.live, rel)), dirs); p == at && at !in dirs
  {
  }

  /** Some round that starts changes its target. */
  lemma RoundSpoils(cfg: Config, rel: string, files: map<Path, Bytes>, dirs: set<Path>) returns (step: Step)
    requires Starts(cfg, rel, files, dirs)
    requires Target(Resolve(Below(cfg.live, rel)), dirs) !in dirs
    ensures !SameAt(files, Copied(cfg, rel, step, files, dirs).1, Target(Resolve(Below(cfg.live, rel)), dirs))
  {
    var at := Target(Resolve(Below(cfg.live, rel)), dirs);
    var left: Bytes := if at in files then files[at] + [0] else [];
    assert at in files ==> |left| == |files[at]| + 1;
    step := Step(false, left, false);
  }

  lemma StrayRoundDies(cfg: Config, rel: string, step: Step, files: map<Path, Bytes>, dirs: set<Path>)
    requires Resolve(Below(cfg.live, rel)) in dirs
    ensures Copied(cfg, rel, step, files, dirs).0.Died?
  {
  }

  /** A round can change a path that is not listed exactly when it starts on a stray
      one; and then the compare fails, after the write. */
  lemma StrayRoundWrites(cfg: Config, copies: seq<string>, rel: string, files: map<Path, Bytes>, dirs: set<Path>)
    requires rel in copies && Accepted(rel)
    ensures (exists step, p ::
              !Listed(cfg.live, copies, p) && !SameAt(files, Copied(cfg, rel, step, files, dirs).1, p)) <==>
            Starts(cfg, rel, files, dirs) && Stray(cfg.live, copies, dirs, rel)
    ensures Stray(cfg.live, copies, dirs, rel) ==> forall step :: Copied(cfg, rel, step, files, dirs).0.Died?
  {
    BelowResolves(cfg.live, rel);
    if Starts(cfg, rel, files, dirs) && Stray(cfg.live, copies, dirs, rel) {
      var step := RoundSpoils(cfg, rel, files, dirs);
    }
    if step, p :| !Listed(cfg.live, copies, p) && !SameAt(files, Copied(cfg, rel, step, files, dirs).1, p) {
      RoundWrites(cfg, rel, step, files, dirs, p);
      assert Resolve(cfg.live) + Resolve(rel) !in dirs ==> Listed(cfg.live, copies, p);
    }
    if Stray(cfg.live, copies, dirs, rel) {
      forall step ensures Copied(cfg, rel, step, files, dirs).0.Died? {
        StrayRoundDies(cfg, rel, step, files, dirs);
      }
    }
  }

  const NAS: Config := Config("d", "/l", "/m", "d@s")

  lemma OneName(root: string, c: string)
    requires Plain(root) && Plain(c)
    ensures Resolve("/" + root) == [root] && Resolve(Below("/" + root, c)) == [root, c]
    ensures NamesFile(Below("/" + root, c)) && Parent(Below("/" + root, c)) == "/" + root
  {
    assert [root][1..] == [] && [c][1..] == [] && [root, c][1..] == [c];
    SpellResolves([root]);
    SpellResolves([root, c]);
    assert Spell([c]) == "/" + c;
    assert Spell([root]) == "/" + root;
    assert Below("/" + root, c) == Spell([root, c]);
    SplitSpelling([root, c]);
    ParentOf("/" + root, c);
  }

  lemma {:induction false} ParentOf(root: string, c: string)
    requires '/' !in c
    ensures Parent(root + ("/" + c)) == root
    decreases |c|
  {
    var s := root + ("/" + c);
    if c == "" {
      assert s[..|s| - 1] == root;
    } else {
      assert c[|c| - 1] in c;
      assert s[..|s| - 1] == root + ("/" + c[..|c| - 1]);
      ParentOf(root, c[..|c| - 1]);
    }
  }

  lemma NasPaths()
    ensures Resolve(Below(NAS.live, "x")) == ["l", "x"] && Resolve(Below(NAS.mp, "x")) == ["m", "x"]
    ensures NamesFile(Below(NAS.mp, "x")) && Resolve(Parent(Below(NAS.live, "x"))) == ["l"]
  {
    OneName("l", "x");
    OneName("m", "x");
    assert "/" + "l" == NAS.live && "/" + "m" == NAS.mp;
  }

  lemma NasListed(p: Path)
    ensures Listed(NAS.live, ["x"], p) <==> p == ["l", "x"]
  {
    NasPaths();
    assert Accepted("x") by { EscapesExact("x"); SplitAtSlash("x", ""); }
    BelowResolves(NAS.live, "x");
    assert "x" in ["x"];
  }

  lemma NasRound(files: map<Path, Bytes>, dirs: set<Path>)
    requires files == map[["m", "x"] := [1]] && dirs == {[], ["l"], ["l", "x"], ["m"]}
    ensures Copied(NAS, "x", Step(true, [], true), files, dirs) == (Died, files[["l", "x", "x"] := [1]])
  {
    NasPaths();
    assert Target(["l", "x"], dirs) == ["l", "x", "x"];
  }

  /** The live path is a directory and the snapshot's a file: the copy goes into the
      directory, to a path nobody listed, before the compare ends the run. */
  lemma CopyIntoDirectory(files: map<Path, Bytes>, dirs: set<Path>)
    requires files == map[["m", "x"] := [1]] && dirs == {[], ["l"], ["l", "x"], ["m"]}
    ensures Copied(NAS, "x", Step(true, [], true), files, dirs) == (Died, files[["l", "x", "x"] := [1]])
    ensures !Listed(NAS.live, ["x"], ["l", "x", "x"])
  {
    NasRound(files, dirs);
    NasListed(["l", "x", "x"]);
  }

  /** The refusals before anything is written. */
  predicate Refusal(cfg: Config, copies: seq<string>, cloneExists: bool, files: map<Path, Bytes>, dirs: set<Path>,
                    snaps: map<string, Tree>)
  {
    || (exists rel :: rel in copies && !Accepted(rel))
    || !(cfg.dataset + "@" <= cfg.snapshot) || ChildDataset(cfg.snapshot) || '#' in cfg.snapshot
    || copies == []
    || cfg.snapshot !in snaps
    || cloneExists || Resolve(cfg.mp) in files || Resolve(cfg.mp) in dirs
    || Resolve(cfg.live) !in dirs
    || Overlap(cfg.live, cfg.mp)
  }

  /** Every file lies in a chain of directories, and is none itself. */
  ghost predicate WellFormed(files: map<Path, Bytes>, dirs: set<Path>) {
    forall p: Path, k :: p in files && 0 <= k <= |p| ==> (p[..k] in dirs <==> k < |p|)
  }

  lemma NothingBelow(files: map<Path, Bytes>, dirs: set<Path>, mp: Path)
    requires WellFormed(files, dirs) && mp !in files && mp !in dirs
    ensures forall p :: p in files ==> !(mp <= p)
  {
    forall p | p in files ensures !(mp <= p) {
      if mp <= p {
        RootExists(files, dirs, p, mp);
      }
    }
  }

  lemma RootExists(files: map<Path, Bytes>, dirs: set<Path>, p: Path, root: Path)
    requires WellFormed(files, dirs) && p in files && root <= p
    ensures root in files || root in dirs
  {
    assert p[..|root|] == root;
    assert p[..|p|] == p;
  }

  /** Both roots in normal form. */
  ghost predicate Fit(cfg: Config) { Canonical(cfg.live) && Canonical(cfg.mp) }

  /** A run the gate lets through with both roots in normal form has them apart. */
  lemma GateKeepsApart(cfg: Config)
    requires Fit(cfg) && !Overlap(cfg.live, cfg.mp)
    ensures Apart(cfg.live, cfg.mp)
  {
    OverlapExact(cfg.live, cfg.mp);
  }

  /** Every listed path holds the snapshot's bytes. */
  predicate Restored(live: string, copies: seq<string>, t: Tree, files: map<Path, Bytes>) {
    forall rel :: rel in copies ==>
      var at := Resolve(live) + Resolve(rel);
      Resolve(rel) in t.files && at in files && files[at] == t.files[Resolve(rel)]
  }

  /** A copy writes below the live root, hence nothing of the clone. */
  lemma CopyStaysLive(cfg: Config, copies: seq<string>, rel: string, dirs0: set<Path>, dirs: set<Path>,
                      before: map<Path, Bytes>, after: map<Path, Bytes>, first: map<Path, Bytes>)
    requires Apart(cfg.live, cfg.mp) && rel in copies && Accepted(rel)
    requires forall p :: !(Resolve(cfg.mp) <= p) ==> (p in dirs <==> p in dirs0)
    requires var t := Target(Resolve(Below(cfg.live, rel)), dirs);
      forall p :: p != t || t in dirs ==> SameAt(before, after, p)
    requires forall p :: !(Resolve(cfg.mp) <= p) && !Written(cfg.live, copies, dirs0, p) ==> SameAt(first, before, p)
    ensures forall p :: !(Resolve(cfg.mp) <= p) && !Written(cfg.live, copies, dirs0, p) ==> SameAt(first, after, p)
    ensures forall p :: Resolve(cfg.mp) <= p ==> SameAt(before, after, p)
  {
    BelowResolves(cfg.live, rel);
    var dst, mp := Resolve(cfg.live) + Resolve(rel), Resolve(cfg.mp);
    NotBelow(cfg, Resolve(rel));
    if dst != [] {
      NotBelow(cfg, Resolve(rel) + [dst[|dst| - 1]]);
      assert Resolve(cfg.live) + (Resolve(rel) + [dst[|dst| - 1]]) == dst + [dst[|dst| - 1]];
    }
    assert Target(dst, dirs) == Target(dst, dirs0);
    assert Target(dst, dirs0) in dirs0 || Written(cfg.live, copies, dirs0, Target(dst, dirs0));
    forall p | !(mp <= p) && !Written(cfg.live, copies, dirs0, p) ensures SameAt(first, after, p) {
      assert SameAt(first, before, p) && SameAt(before, after, p);
    }
  }

  lemma NotBelow(cfg: Config, r: Path)
    requires Apart(cfg.live, cfg.mp)
    ensures !(Resolve(cfg.mp) <= Resolve(cfg.live) + r)
  {
    if Resolve(cfg.mp) <= Resolve(cfg.live) + r {
      BelowBoth(cfg, r);
    }
  }

  lemma BelowBoth(cfg: Config, r: Path)
    requires Resolve(cfg.mp) <= Resolve(cfg.live) + r
    ensures !Apart(cfg.live, cfg.mp)
  {
    var at, mp := Resolve(cfg.live) + r, Resolve(cfg.mp);
    Comparable(Resolve(cfg.live), r, mp, at[|mp|..]);
  }

  /** A later copy to the same path writes the same bytes again. */
  lemma OneMoreRestored(cfg: Config, copies: seq<string>, k: nat, t: Tree,
                        before: map<Path, Bytes>, after: map<Path, Bytes>)
    requires Apart(cfg.live, cfg.mp) && k < |copies| && Accepted(copies[k])
    requires Records(t, Resolve(cfg.mp), before) && Restored(cfg.live, copies[..k], t, before)
    requires var src, dst := Resolve(Below(cfg.mp, copies[k])), Resolve(Below(cfg.live, copies[k]));
      src in before && after == before[dst := before[src]]
    ensures Records(t, Resolve(cfg.mp), after) && Restored(cfg.live, copies[..k + 1], t, after)
  {
    var rel := copies[k];
    BelowResolves(cfg.live, rel);
    BelowResolves(cfg.mp, rel);
    var dst := Resolve(cfg.live) + Resolve(rel);
    forall r: Path ensures Resolve(cfg.mp) + r != dst { ApartTreesShareNothing(cfg.live, cfg.mp, Resolve(rel), r); }
    assert Resolve(rel) in t.files && after[dst] == t.files[Resolve(rel)];
    forall other | other in copies[..k + 1]
      ensures var at := Resolve(cfg.live) + Resolve(other);
        Resolve(other) in t.files && at in after && after[at] == t.files[Resolve(other)]
    {
      var at := Resolve(cfg.live) + Resolve(other);
      if at == dst {
        assert at[|Resolve(cfg.live)|..] == Resolve(other) && dst[|Resolve(cfg.live)|..] == Resolve(rel);
      } else {
        assert other in copies[..k];
      }
    }
  }

  /* ---- when a round succeeds ---- */

  function ButLast(p: Path): Path { if p == [] then [] else p[..|p| - 1] }

  /** What one listed path needs to be restored: its text ends in a name, the snapshot
      has that file, the live tree has its directory and no directory in its place, and
      the copy and the flush work. */
  predicate Lands(live: string, rel: string, step: Step, t: Tree, dirs: set<Path>) {
    && NamesFile(rel) && Resolve(rel) in t.files
    && Resolve(live) + ButLast(Resolve(rel)) in dirs && Resolve(live) + Resolve(rel) !in dirs
    && step.copied && step.flushed
  }

  lemma {:induction false} LastSlash(s: string) returns (k: nat)
    requires '/' in s
    ensures k < |s| && s[k] == '/' && '/' !in s[k + 1..]
    decreases |s|
  {
    var n := |s| - 1;
    if s[n] == '/' {
      k := n;
    } else {
      assert s == s[..n] + [s[n]];
      k := LastSlash(s[..n]);
      assert s[k + 1..] == s[..n][k + 1..] + [s[n]];
    }
  }

  lemma SplitOne(last: string)
    requires '/' !in last
    ensures Split(last) == [last] && Split(last)[|Split(last)| - 1] == last
  {
    SplitAtSlash(last, "");
  }

  lemma SplitLast(a: string, last: string)
    requires '/' !in last
    ensures Split(a + ("/" + last)) == Split(a) + [last]
  {
    SplitOne(last);
    SplitJoins(a, last);
  }

  lemma EnterName(at: Path, last: string)
    requires last != "" && last != "." && last != ".."
    ensures Walk(at, [last]) == at + [last]
  {
    assert [last][1..] == [];
  }

  /** `root/last`. */
  lemma FlatParent(root: string, last: string)
    requires '/' !in last && last != "" && last != "." && last != ".."
    ensures Parent(Below(root, last)) == root && Resolve(last) == [last]
  {
    ParentOf(root, last);
    SplitOne(last);
    EnterName([], last);
  }

  /** `root/a/last`. */
  lemma DeepParent(root: string, a: string, last: string)
    requires '/' !in last && last != "" && last != "." && last != ".." && ".." !in Split(a)
    ensures Resolve(Parent(Below(root, a + ("/" + last)))) == Resolve(root) + Resolve(a)
    ensures Resolve(a + ("/" + last)) == Resolve(a) + [last]
  {
    assert Below(root, a + ("/" + last)) == Below(root, a) + ("/" + last);
    ParentOf(Below(root, a), last);
    SplitJoins(root, a);
    WalkJoins([], Split(root), Split(a));
    WalkDescends(Resolve(root), Split(a));
    SplitLast(a, last);
    WalkJoins([], Split(a), [last]);
    EnterName(Resolve(a), last);
  }

  /** The text before the last slash names the directory of the file. */
  lemma ParentResolves(root: string, rel: string)
    requires Accepted(rel) && NamesFile(rel)
    ensures Resolve(Parent(Below(root, rel))) == Resolve(root) + ButLast(Resolve(rel))
  {
    EscapesExact(rel);
    if '/' in rel {
      var k := LastSlash(rel);
      var a, last := rel[..k], rel[k + 1..];
      assert rel == a + ("/" + last);
      SplitLast(a, last);
      assert last in Split(rel) && forall c :: c in Split(a) ==> c in Split(rel);
      DeepParent(root, a, last);
    } else {
      SplitOne(rel);
      assert rel in Split(rel);
      FlatParent(root, rel);
      assert Resolve(root) + [] == Resolve(root);
    }
  }

  lemma NamesBelow(root: string, rel: string)
    ensures NamesFile(Below(root, rel)) <==> NamesFile(rel)
  {
    SplitJoins(root, rel);
    var n := |Split(root)|;
    assert (Split(root) + Split(rel))[n + |Split(rel)| - 1] == Split(rel)[|Split(rel)| - 1];
  }

  /** A round with the clone mounted succeeds exactly if its path lands. */
  lemma RoundLands(cfg: Config, rel: string, step: Step, t: Tree, files: map<Path, Bytes>, dirs0: set<Path>,
                   dirs: set<Path>)
    requires Apart(cfg.live, cfg.mp) && Accepted(rel) && Records(t, Resolve(cfg.mp), files)
    requires forall p :: !(Resolve(cfg.mp) <= p) ==> (p in dirs <==> p in dirs0)
    ensures Copied(cfg, rel, step, files, dirs).0.Done? <==> Lands(cfg.live, rel, step, t, dirs0)
  {
    NamesBelow(cfg.mp, rel);
    BelowResolves(cfg.live, rel);
    BelowResolves(cfg.mp, rel);
    if NamesFile(rel) {
      ParentResolves(cfg.live, rel);
      NotBelow(cfg, ButLast(Resolve(rel)));
      NotBelow(cfg, Resolve(rel));
      ApartTreesShareNothing(cfg.live, cfg.mp, Resolve(rel), Resolve(rel));
      RoundDone(cfg, rel, step, files, dirs);
    }
  }

  lemma RoundDone(cfg: Config, rel: string, step: Step, files: map<Path, Bytes>, dirs: set<Path>)
    requires NamesFile(Below(cfg.mp, rel)) && Resolve(Below(cfg.mp, rel)) != Resolve(Below(cfg.live, rel))
    ensures Copied(cfg, rel, step, files, dirs).0.Done? <==>
              && Resolve(Below(cfg.mp, rel)) in files && Resolve(Parent(Below(cfg.live, rel))) in dirs
              && Resolve(Below(cfg.live, rel)) !in dirs && step.copied && step.flushed
  {
  }

  /** Outside the clone only what the list may write has moved. */
  ghost predicate OnlyWritten(cfg: Config, copies: seq<string>, dirs0: set<Path>, files0: map<Path, Bytes>,
                              files: map<Path, Bytes>)
  {
    forall p :: !(Resolve(cfg.mp) <= p) && !Written(cfg.live, copies, dirs0, p) ==> SameAt(files0, files, p)
  }

  predicate AllLand(live: string, copies: seq<string>, k: nat, steps: nat -> Step, t: Tree, dirs0: set<Path>)
    requires k <= |copies|
  {
    forall j: nat :: j < k ==> Lands(live, copies[j], steps(j), t, dirs0)
  }

  /** What one round leaves. */
  ghost predicate RoundLeaves(cfg: Config, rel: string, dirs: set<Path>, files: map<Path, Bytes>, done: bool,
                              after: map<Path, Bytes>)
  {
    var src, dst := Resolve(Below(cfg.mp, rel)), Resolve(Below(cfg.live, rel));
    && (forall p :: p != Target(dst, dirs) || Target(dst, dirs) in dirs ==> SameAt(files, after, p))
    && (done ==> src in files && after == files[dst := files[src]])
  }

  lemma CopiedLeaves(cfg: Config, rel: string, step: Step, files: map<Path, Bytes>, dirs: set<Path>)
    requires Resolve(Below(cfg.mp, rel)) != Resolve(Below(cfg.live, rel))
    ensures var (exit, after) := Copied(cfg, rel, step, files, dirs);
      RoundLeaves(cfg, rel, dirs, files, exit.Done?, after)
  {
  }

  lemma RoundIs(cfg: Config, rel: string, step: Step, t: Tree, dirs0: set<Path>, dirs: set<Path>,
                files: map<Path, Bytes>, exit: Exit, after: map<Path, Bytes>)
    requires Apart(cfg.live, cfg.mp) && Accepted(rel) && Records(t, Resolve(cfg.mp), files)
    requires forall p :: !(Resolve(cfg.mp) <= p) ==> (p in dirs <==> p in dirs0)
    requires (exit, after) == Copied(cfg, rel, step, files, dirs)
    ensures RoundLeaves(cfg, rel, dirs, files, exit.Done?, after)
    ensures exit.Done? <==> Lands(cfg.live, rel, step, t, dirs0)
  {
    BelowResolves(cfg.live, rel);
    BelowResolves(cfg.mp, rel);
    ApartTreesShareNothing(cfg.live, cfg.mp, Resolve(rel), Resolve(rel));
    CopiedLeaves(cfg, rel, step, files, dirs);
    RoundLands(cfg, rel, step, t, files, dirs0, dirs);
  }

  /** The loop's state after k rounds that worked. */
  ghost predicate Progress(cfg: Config, copies: seq<string>, k: nat, t: Tree, files: map<Path, Bytes>)
    requires k <= |copies|
  {
    Records(t, Resolve(cfg.mp), files) && Restored(cfg.live, copies[..k], t, files)
  }

  /** One more round. */
  lemma RoundNext(cfg: Config, copies: seq<string>, k: nat, t: Tree, dirs0: set<Path>, dirs: set<Path>,
                  files0: map<Path, Bytes>, files: map<Path, Bytes>, done: bool, after: map<Path, Bytes>)
    requires Apart(cfg.live, cfg.mp) && k < |copies| && Accepted(copies[k])
    requires forall p :: !(Resolve(cfg.mp) <= p) ==> (p in dirs <==> p in dirs0)
    requires OnlyWritten(cfg, copies, dirs0, files0, files) && Progress(cfg, copies, k, t, files)
    requires RoundLeaves(cfg, copies[k], dirs, files, done, after)
    ensures OnlyWritten(cfg, copies, dirs0, files0, after)
    ensures done ==> Progress(cfg, copies, k + 1, t, after)
  {
    CopyStaysLive(cfg, copies, copies[k], dirs0, dirs, files, after, files0);
    if done {
      OneMoreRestored(cfg, copies, k, t, files, after);
    }
  }

  lemma AllLandNext(live: string, copies: seq<string>, k: nat, steps: nat -> Step, t: Tree, dirs0: set<Path>,
                    lands: bool)
    requires k < |copies| && AllLand(live, copies, k, steps, t, dirs0)
    requires lands <==> Lands(live, copies[k], steps(k), t, dirs0)
    ensures AllLand(live, copies, k + 1, steps, t, dirs0) <==> lands
    ensures !lands ==> !AllLand(live, copies, |copies|, steps, t, dirs0)
  {
  }

  class Nas {
    var files: map<Path, Bytes>       // every mounted file, by absolute path
    var dirs: set<Path>
    var snaps: map<string, Tree>

    /** `zfs snapshot -r` of the dataset mounted at `root`. */
    method Snapshot(name: string, root: Path, works: bool) returns (ok: bool)
      modifies this`snaps
      ensures ok == (works && name !in old(snaps))
      ensures !ok ==> snaps == old(snaps)
      ensures ok ==> name in snaps && snaps == old(snaps)[name := snaps[name]] && Records(snaps[name], root, files)
    {
      ok := works && name !in snaps;
      if ok {
        var under := set q | q in files && root <= q :: q[|root|..];
        forall r: Path ensures r in under <==> root + r in files {
          if root + r in files { assert (root + r)[|root|..] == r && root <= root + r; }
          if r in under {
            var q :| q in files && root <= q && q[|root|..] == r;
            assert q == root + r;
          }
        }
        var t := Tree(map r | r in under :: files[root + r], {});
        snaps := snaps[name := t];
      }
    }

    /** `zfs clone -o mountpoint -o readonly=on`: the snapshot's tree appears
        below the mountpoint, which did not exist. */
    method Clone(t: Tree, mp: Path, works: bool) returns (ok: bool)
      requires mp !in files && mp !in dirs && forall p :: p in files && mp <= p ==> false
      modifies this`files, this`dirs
      ensures ok == works
      ensures !ok ==> files == old(files) && dirs == old(dirs)
      ensures forall p :: !(mp <= p) ==> (p in files <==> p in old(files)) && (p in files ==> files[p] == old(files)[p])
      ensures forall p :: !(mp <= p) ==> (p in dirs <==> p in old(dirs))
      ensures ok ==> Records(t, mp, files)
    {
      ok := works;
      if ok {
        var paths := set r | r in t.files :: mp + r;
        forall p ensures p in paths <==> mp <= p && p[|mp|..] in t.files {
          if p in paths {
            var r :| r in t.files && p == mp + r;
            assert p[|mp|..] == r;
          }
          if mp <= p && p[|mp|..] in t.files { assert p == mp + p[|mp|..]; }
        }
        files := files + map p | p in paths :: t.files[p[|mp|..]];
        dirs := dirs + {mp} + set r | r in t.dirs :: mp + r;
        forall r: Path ensures (r in t.files <==> mp + r in files) && (r in t.files ==> t.files[r] == files[mp + r]) {
          assert (mp + r)[|mp|..] == r && mp <= mp + r;
        }
      }
    }

    /** One round of the copy loop. */
    method CopyBack(cfg: Config, rel: string, step: Step) returns (exit: Exit)
      modifies this`files
      ensures (exit, files) == Copied(cfg, rel, step, old(files), dirs)
    {
      var src, dst := Resolve(Below(cfg.mp, rel)), Resolve(Below(cfg.live, rel));
      if !NamesFile(Below(cfg.mp, rel)) || src !in files { return Died; }
      if Resolve(Parent(Below(cfg.live, rel))) !in dirs { return Died; }
      if Target(dst, dirs) in dirs { return Died; }
      files := files[Target(dst, dirs) := if step.copied then files[src] else step.left];
      if !step.copied || !step.flushed { return Died; }
      if dst !in files || dst in dirs || files[dst] != files[src] { return Died; }
      return Done;
    }

    /** The whole run. `preserve` is the name of its own snapshot. */
    method Restore(cfg: Config, copies: seq<string>, execute: bool, preserve: string, weather: Weather,
                   steps: nat -> Step)
      returns (exit: Exit)
      requires WellFormed(files, dirs)
      modifies this
      // a refused run and a dry run change nothing, and only a refused dry run fails
      ensures Refusal(cfg, copies, weather.cloneExists, old(files), old(dirs), old(snaps)) ==>
                exit.Died? && files == old(files) && dirs == old(dirs) && snaps == old(snaps)
      ensures !execute ==>
                (exit.Died? <==> Refusal(cfg, copies, weather.cloneExists, old(files), old(dirs), old(snaps)))
      ensures !execute ==> files == old(files) && dirs == old(dirs) && snaps == old(snaps)
      // no snapshot is lost, and no file moves before the old state is preserved
      ensures forall s :: s in old(snaps) ==> s in snaps && snaps[s] == old(snaps)[s]
      ensures files != old(files) ==> preserve !in old(snaps) && preserve in snaps &&
                                      Records(snaps[preserve], Resolve(cfg.live), old(files))
      // outside the clone only what was asked for moves
      ensures Apart(cfg.live, cfg.mp) || Fit(cfg) ==>
              forall p :: !(Resolve(cfg.mp) <= p) && !Written(cfg.live, copies, old(dirs), p) ==>
                             SameAt(old(files), files, p)
      // a live run succeeds exactly if nothing refuses it, the old state was preserved, the
      // clone is there and every listed path lands
      ensures (Apart(cfg.live, cfg.mp) || Fit(cfg)) && execute ==>
                (exit.Done? <==>
                   && !Refusal(cfg, copies, weather.cloneExists, old(files), old(dirs), old(snaps))
                   && weather.preserved && preserve !in old(snaps) && weather.cloned && weather.mounted
                   && AllLand(cfg.live, copies, |copies|, steps, old(snaps)[cfg.snapshot], old(dirs)))
      // and then every listed path is the snapshot's, however often it is listed
      ensures (Apart(cfg.live, cfg.mp) || Fit(cfg)) && execute && exit.Done? ==>
                cfg.snapshot in old(snaps) && Restored(cfg.live, copies, old(snaps)[cfg.snapshot], files)
    {
      if !(cfg.dataset + "@" <= cfg.snapshot) || ChildDataset(cfg.snapshot) || '#' in cfg.snapshot { return Died; }
      if copies == [] { return Died; }
      var k := 0;
      while k < |copies|
        invariant k <= |copies| && forall j :: 0 <= j < k ==> Accepted(copies[j])
      {
        if !Accepted(copies[k]) { return Died; }
        k := k + 1;
      }
      assert forall rel :: rel in copies ==> Accepted(rel);
      if cfg.snapshot !in snaps || weather.cloneExists { return Died; }
      if Resolve(cfg.mp) in files || Resolve(cfg.mp) in dirs || Resolve(cfg.live) !in dirs { return Died; }
      if AtOrUnder(cfg.mp, cfg.live) || AtOrUnder(cfg.live, cfg.mp) { return Died; }
      if !execute { return Done; }
      if Fit(cfg) { GateKeepsApart(cfg); }
      exit := Execute(cfg, copies, preserve, weather, steps);
    }

    /** The part behind `--execute`. */
    method Execute(cfg: Config, copies: seq<string>, preserve: string, weather: Weather, steps: nat -> Step)
      returns (exit: Exit)
      requires WellFormed(files, dirs) && cfg.snapshot in snaps && forall rel :: rel in copies ==> Accepted(rel)
      requires Resolve(cfg.mp) !in files && Resolve(cfg.mp) !in dirs
      modifies this
      ensures forall s :: s in old(snaps) ==> s in snaps && snaps[s] == old(snaps)[s]
      ensures files != old(files) ==> preserve !in old(snaps) && preserve in snaps &&
                                      Records(snaps[preserve], Resolve(cfg.live), old(files))
      ensures Apart(cfg.live, cfg.mp) ==>
              forall p :: !(Resolve(cfg.mp) <= p) && !Written(cfg.live, copies, old(dirs), p) ==>
                                            SameAt(old(files), files, p)
      ensures Apart(cfg.live, cfg.mp) ==>
                (exit.Done? <==>
                   && weather.preserved && preserve !in old(snaps) && weather.cloned && weather.mounted
                   && AllLand(cfg.live, copies, |copies|, steps, old(snaps)[cfg.snapshot], old(dirs)))
      ensures Apart(cfg.live, cfg.mp) && exit.Done? ==> Restored(cfg.live, copies, old(snaps)[cfg.snapshot], files)
    {
      var kept := Snapshot(preserve, Resolve(cfg.live), weather.preserved);
      if !kept { return Died; }
      NothingBelow(files, dirs, Resolve(cfg.mp));
      var cloned := Clone(snaps[cfg.snapshot], Resolve(cfg.mp), weather.cloned);
      if !cloned || !weather.mounted { return Died; }
      exit := CopyAll(cfg, copies, steps, snaps[cfg.snapshot], old(files), old(dirs));
    }

    /** The copy loop, with the clone of t mounted. */
    method CopyAll(cfg: Config, copies: seq<string>, steps: nat -> Step, ghost t: Tree,
                   ghost files0: map<Path, Bytes>, ghost dirs0: set<Path>)
      returns (exit: Exit)
      requires forall rel :: rel in copies ==> Accepted(rel)
      requires Records(t, Resolve(cfg.mp), files)
      requires forall p :: !(Resolve(cfg.mp) <= p) ==> (p in dirs <==> p in dirs0) && SameAt(files0, files, p)
      modifies this`files
      ensures Apart(cfg.live, cfg.mp) ==>
              OnlyWritten(cfg, copies, dirs0, files0, files)
      ensures Apart(cfg.live, cfg.mp) ==> (exit.Done? <==> AllLand(cfg.live, copies, |copies|, steps, t, dirs0))
      ensures Apart(cfg.live, cfg.mp) && exit.Done? ==> Restored(cfg.live, copies, t, files)
    {
      var k := 0;
      while k < |copies|
        invariant k <= |copies|
        invariant Apart(cfg.live, cfg.mp) ==>
              && OnlyWritten(cfg, copies, dirs0, files0, files) && AllLand(cfg.live, copies, k, steps, t, dirs0)
              && Progress(cfg, copies, k, t, files)
      {
        ghost var before := files;
        exit := CopyBack(cfg, copies[k], steps(k));
        if Apart(cfg.live, cfg.mp) {
          RoundIs(cfg, copies[k], steps(k), t, dirs0, dirs, before, exit, files);
          RoundNext(cfg, copies, k, t, dirs0, dirs, files0, before, exit.Done?, files);
          AllLandNext(cfg.live, copies, k, steps, t, dirs0, exit.Done?);
        }
        if exit.Died? { return; }
        k := k + 1;
      }
      assert copies[..|copies|] == copies;
      return Done;
    }
  }
}
