/** The `modelfs update` handshake: any number of CLIs, one request file, one ack
    file, and the chain of images that replace one another. Tokens are random
    and taken as distinct: a token is the CLI that drew it. */
module Handshake {
  import opened Pieces

  /** A CLI's own staging file, `update.req.tmp.<pid>`. */
  datatype Stage = Partial | Whole

  /** What a read of update.req can find. */
  datatype Request = Absent | Torn | Of(cli: nat)

  /** `Handing`: the session loop is over, update.req was read and named this CLI's
      binary, and the state for the next image is being written. */
  datatype Phase = Booting | Adopted | Consumed | Serving | Handing(bin: nat)

  /** The running image: when it was exec'd, whose binary it is, and the token it
      took from update.req. */
  datatype Image = Image(started: nat, binary: Option<nat>, token: Option<nat>, phase: Phase)

  /** An adoption: the image's start, its binary, when it read the request, whether
      that went out after the image's exec, and whether after the read before it. */
  datatype Adoption = Adoption(started: nat, binary: Option<nat>, at: nat, raced: bool, late: bool)

  datatype Host = Host(
    clock: nat,
    stages: map<nat, Stage>,
    req: Request,
    ack: Option<nat>,
    asked: bool,
    image: Image,
    sinceRead: set<nat>,          // requests that went out since the last image read one
    sinceExec: set<nat>,          // requests that went out since the last exec
    published: map<nat, nat>,     // history: when each CLI's request went out
    adoptions: map<nat, Adoption>,
    reported: set<nat>)           // CLIs that printed "updated"

  datatype Action =
    | StageWrite(cli: nat, whole: bool)   // may be cut short by a crash
    | StageDrop(cli: nat)
    | Publish(cli: nat)
    | Signal
    | Take                                // execHandover reads the request
    | Exec                                // ... and at its end execs what it read
    | Adopt                               // read update.req, take its token
    | Consume                             // unlink update.req
    | Serve                               // writeAck
    | Remount                             // the image died, the operator mounts again
    | Report(cli: nat)
    | TimeOut(cli: nat)

  predicate Enabled(h: Host, a: Action) {
    match a
    case StageWrite(c, _) => c !in h.published
    case StageDrop(_) => true
    case Publish(c) => c in h.stages && h.stages[c].Whole? && c !in h.published
    case Signal => true
    case Take => h.image.phase.Serving? && h.asked && h.req.Of?
    case Exec => h.image.phase.Handing?
    case Adopt => h.image.phase.Booting?
    case Consume => h.image.phase.Adopted?
    case Serve => h.image.phase.Consumed?
    case Remount => true
    case Report(c) => c in h.published && h.ack == Some(c) && c !in h.reported
    case TimeOut(c) => c in h.published
  }

  function Apply(h: Host, a: Action): Host
    requires Enabled(h, a)
  {
    var g := h.(clock := h.clock + 1);
    match a
    case StageWrite(c, whole) => g.(stages := h.stages[c := if whole then Whole else Partial])
    case StageDrop(c) => g.(stages := h.stages - {c})
    case Publish(c) =>
      g.(req := if h.stages[c].Whole? then Of(c) else Torn, stages := h.stages - {c},
         published := h.published[c := h.clock],
         sinceRead := h.sinceRead + {c}, sinceExec := h.sinceExec + {c})
    case Signal => g.(asked := true)
    case Take => g.(image := h.image.(phase := Handing(h.req.cli)), sinceRead := {})
    case Exec =>
      g.(image := Image(h.clock, Some(h.image.phase.bin), None, Booting), asked := false, sinceExec := {})
    case Adopt =>
      if h.req.Of? then
        var c := h.req.cli;
        var it := Adoption(h.image.started, h.image.binary, h.clock, c in h.sinceExec, c in h.sinceRead);
        g.(image := h.image.(token := Some(c), phase := Adopted), adoptions := h.adoptions[c := it])
      else g.(image := h.image.(phase := Adopted))
    case Consume => g.(req := Absent, image := h.image.(phase := Consumed))
    case Serve => g.(image := h.image.(phase := Serving), ack := if h.image.token.Some? then h.image.token else h.ack)
    case Remount => g.(image := Image(h.clock, None, None, Serving), asked := false)
    case Report(c) => g.(reported := h.reported + {c}, ack := None)
    case TimeOut(c) => g.(req := Absent, ack := None)
  }

  predicate Init(h: Host) {
    && h.stages == map[] && h.req.Absent? && h.ack.None? && !h.asked
    && h.image == Image(h.image.started, None, None, Serving)
    && h.image.started <= h.clock && h.published == map[] && h.adoptions == map[]
    && h.sinceRead == {} && h.sinceExec == {} && h.reported == {}
  }

  /* ---- invariant ---- */

  /** A token is only ever seen after its request was published. */
  predicate Known(h: Host) {
    && !h.req.Torn?
    && (h.req.Of? ==> h.req.cli in h.published)
    && (h.image.token.Some? ==> h.image.token.value in h.adoptions)
    && (h.ack.Some? ==> h.ack.value in h.adoptions)
    && (forall c :: c in h.reported ==> c in h.adoptions)
    && h.image.started <= h.clock
    && (h.image.phase.Handing? ==> h.image.phase.bin in h.published)
    && (h.image.binary.Some? ==> h.image.binary.value in h.published)
    && h.sinceRead <= h.published.Keys && h.sinceExec <= h.published.Keys
  }

  ghost predicate Times(h: Host) {
    && (forall c :: c in h.published ==> h.published[c] < h.clock)
    && (forall c :: c in h.adoptions ==> c in h.published && Fits(h.published[c], c, h.adoptions[c]))
  }

  /** An adoption of CLI c follows its request, which went out at `out`. */
  predicate Fits(out: nat, c: nat, a: Adoption) {
    && out < a.at
    && (a.raced <==> a.started <= out)
    && (a.late <==> a.binary != Some(c))
    && (a.raced ==> a.late)
  }

  /** While an image boots, the requests that went out since its exec are known, and
      so is whether the request in the file is the one whose binary it runs. */
  predicate Waiting(h: Host) {
    match h.image.phase
    case Handing(b) => h.req.Of? ==> (h.req.cli in h.sinceRead <==> h.req.cli != b)
    case Booting =>
      && h.sinceExec <= h.sinceRead
      && (forall c :: c in h.published ==> (c in h.sinceExec <==> h.image.started <= h.published[c]))
      && (h.req.Of? ==> (h.req.cli in h.sinceRead <==> h.image.binary != Some(h.req.cli)))
    case _ => true
  }

  ghost predicate Inv(h: Host) { Known(h) && Times(h) && Waiting(h) }

  lemma StepKeepsInv(h: Host, a: Action)
    requires Inv(h) && Enabled(h, a)
    ensures Inv(Apply(h, a))
  {
    StepKeepsTimes(h, a);
    StepKeepsWaiting(h, a);
  }

  lemma StepKeepsTimes(h: Host, a: Action)
    requires Inv(h) && Enabled(h, a)
    ensures Times(Apply(h, a))
  {
  }

  lemma StepKeepsWaiting(h: Host, a: Action)
    requires Inv(h) && Enabled(h, a)
    ensures Waiting(Apply(h, a))
  {
  }

  ghost predicate Runs(h: Host, acts: seq<Action>)
    decreases |acts|
  {
    acts == [] || (Enabled(h, acts[0]) && Runs(Apply(h, acts[0]), acts[1..]))
  }

  ghost function After(h: Host, acts: seq<Action>): Host
    requires Runs(h, acts)
    decreases |acts|
  {
    if acts == [] then h else After(Apply(h, acts[0]), acts[1..])
  }

  lemma {:induction false} RunKeepsInv(h: Host, acts: seq<Action>)
    requires Inv(h) && Runs(h, acts)
    ensures Inv(After(h, acts))
    decreases |acts|
  {
    if acts == [] {
    } else {
      StepKeepsInv(h, acts[0]);
      RunKeepsInv(Apply(h, acts[0]), acts[1..]);
    }
  }

  /** With any number of CLIs in any interleaving, and images that may die at any
      point, update.req never holds part of a request, and a CLI that reports success
      published a request whose token an image read afterwards. That image was exec'd
      after the request went out exactly when the request did not go out between that
      exec and the adoption, and it runs the reporting CLI's binary exactly when the
      request did not go out between the read before the exec and the adoption; an
      image with its own binary is one exec'd after its request. */
  lemma ReportedUpdatesTookPlace(h: Host, acts: seq<Action>, c: nat)
    requires Init(h) && Runs(h, acts)
    ensures var g := After(h, acts);
      && !g.req.Torn?
      && (c in g.reported ==>
            && c in g.published && c in g.adoptions && g.published[c] < g.adoptions[c].at
            && (g.published[c] < g.adoptions[c].started <==> !g.adoptions[c].raced)
            && (g.adoptions[c].binary == Some(c) <==> !g.adoptions[c].late)
            && (g.adoptions[c].binary == Some(c) ==> g.published[c] < g.adoptions[c].started))
  {
    assert Inv(h);
    RunKeepsInv(h, acts);
  }

  /** What holds once CLI c gave up and its request is gone: it stays gone. */
  predicate Withdrawn(h: Host, c: nat) { c in h.published && h.req != Of(c) }

  /** Every CLI that asked may give up; an image that had not taken its token by then
      never does, whatever happens afterwards. */
  lemma TimedOutIsFinal(h: Host, c: nat, acts: seq<Action>)
    requires Inv(h) && c in h.published
    ensures Enabled(h, TimeOut(c))
    ensures var v := Apply(h, TimeOut(c));
      Runs(v, acts) ==>
        && (c in After(v, acts).adoptions <==> c in h.adoptions)
        && (c in h.adoptions ==> After(v, acts).adoptions[c] == h.adoptions[c])
  {
    var v := Apply(h, TimeOut(c));
    if Runs(v, acts) {
      StaysWithdrawn(v, c, acts);
    }
  }

  lemma {:induction false} StaysWithdrawn(h: Host, c: nat, acts: seq<Action>)
    requires Withdrawn(h, c) && Runs(h, acts)
    ensures c in After(h, acts).adoptions <==> c in h.adoptions
    ensures c in h.adoptions ==> After(h, acts).adoptions[c] == h.adoptions[c]
    decreases |acts|
  {
    if acts != [] {
      StaysWithdrawn(Apply(h, acts[0]), c, acts[1..]);
    }
  }

  function Fresh(): Host {
    Host(0, map[], Absent, None, false, Image(0, None, None, Serving), {}, {}, map[], map[], {})
  }

  /** The first CLI's request up to the old image's read, the second CLI's request,
      and the way of the new image up to the second CLI's report. */
  const FIRST: seq<Action> := [StageWrite(1, true), Publish(1), Signal, Take]
  const SECOND: seq<Action> := [StageWrite(2, true), Publish(2)]
  const BOOT: seq<Action> := [Adopt, Consume, Serve, Report(2)]

  /** Two CLIs: the second publishes while the first one's image boots, and reports
      an update to an image that was exec'd before and runs the other binary. The
      first one's token is gone. */
  lemma RacedUpdateReports() returns (h: Host)
    ensures Init(Fresh()) && Runs(Fresh(), FIRST + [Exec] + SECOND + BOOT)
    ensures h == After(Fresh(), FIRST + [Exec] + SECOND + BOOT)
    ensures 2 in h.reported && 2 in h.published && h.adoptions.Keys == {2}
    ensures h.published[2] > h.adoptions[2].started && h.adoptions[2].binary == Some(1)
  {
    var h4 := TakeFirst();
    One(h4, Exec);
    Chain(Fresh(), FIRST, [Exec]);
    var h5 := Apply(h4, Exec);
    var h7 := PublishSecond(h5);
    Chain(Fresh(), FIRST + [Exec], SECOND);
    h := BootAndReport(h7);
    Chain(Fresh(), FIRST + [Exec] + SECOND, BOOT);
  }

  /** ... and so does the one that publishes a little earlier, between the old
      image's read and its exec. Now the image was exec'd after that request. */
  lemma LateUpdateReports() returns (h: Host)
    ensures Init(Fresh()) && Runs(Fresh(), FIRST + SECOND + [Exec] + BOOT)
    ensures h == After(Fresh(), FIRST + SECOND + [Exec] + BOOT)
    ensures 2 in h.reported && 2 in h.published && h.adoptions.Keys == {2}
    ensures h.published[2] < h.adoptions[2].started && h.adoptions[2].binary == Some(1)
  {
    var h4 := TakeFirst();
    var h6 := PublishSecond(h4);
    Chain(Fresh(), FIRST, SECOND);
    One(h6, Exec);
    var h7 := Apply(h6, Exec);
    Chain(Fresh(), FIRST + SECOND, [Exec]);
    h := BootAndReport(h7);
    Chain(Fresh(), FIRST + SECOND + [Exec], BOOT);
  }

  lemma {:induction false} Chain(h: Host, a: seq<Action>, b: seq<Action>)
    requires Runs(h, a) && Runs(After(h, a), b)
    ensures Runs(h, a + b) && After(h, a + b) == After(After(h, a), b)
    decreases |a|
  {
    if a == [] {
      assert a + b == b;
    } else {
      assert (a + b)[1..] == a[1..] + b;
      Chain(Apply(h, a[0]), a[1..], b);
    }
  }

  lemma One(h: Host, a: Action)
    requires Enabled(h, a)
    ensures Runs(h, [a]) && After(h, [a]) == Apply(h, a)
  {
    assert [a][1..] == [];
    assert Runs(Apply(h, a), []);
  }

  lemma Two(h: Host, a: Action, b: Action)
    requires Enabled(h, a) && Enabled(Apply(h, a), b)
    ensures Runs(h, [a, b]) && After(h, [a, b]) == Apply(Apply(h, a), b)
  {
    One(h, a);
    One(Apply(h, a), b);
    Chain(h, [a], [b]);
    assert [a] + [b] == [a, b];
  }

  lemma TakeFirst() returns (h: Host)
    ensures Runs(Fresh(), FIRST) && h == After(Fresh(), FIRST)
    ensures h == Host(4, map[], Of(1), None, true, Image(0, None, None, Handing(1)), {}, {1}, map[1 := 1], map[], {})
  {
    Two(Fresh(), StageWrite(1, true), Publish(1));
    var h2 := Apply(Apply(Fresh(), StageWrite(1, true)), Publish(1));
    assert h2.stages == map[] && h2.published == map[1 := 1];
    Two(h2, Signal, Take);
    Chain(Fresh(), [StageWrite(1, true), Publish(1)], [Signal, Take]);
    assert FIRST == [StageWrite(1, true), Publish(1)] + [Signal, Take];
    h := After(Fresh(), FIRST);
  }

  lemma PublishSecond(h: Host) returns (g: Host)
    requires h.stages == map[] && h.published == map[1 := 1]
    ensures Runs(h, SECOND) && g == After(h, SECOND)
    ensures g.req == Of(2) && g.stages == map[] && g.published == map[1 := 1, 2 := h.clock + 1] &&
            g.clock == h.clock + 2
    ensures (g.image, g.ack, g.asked, g.adoptions, g.reported) == (h.image, h.ack, h.asked, h.adoptions, h.reported)
  {
    Two(h, StageWrite(2, true), Publish(2));
    g := Apply(Apply(h, StageWrite(2, true)), Publish(2));
  }

  lemma BootAndReport(h: Host) returns (g: Host)
    requires h.image.phase.Booting? && h.req == Of(2) && 2 in h.published
    requires h.adoptions == map[] && h.reported == {}
    ensures Runs(h, BOOT) && g == After(h, BOOT)
    ensures 2 in g.reported && g.adoptions.Keys == {2} && g.published == h.published
    ensures g.adoptions[2].started == h.image.started && g.adoptions[2].binary == h.image.binary
  {
    var h2 := AdoptSecond(h);
    Two(h2, Serve, Report(2));
    g := Apply(Apply(h2, Serve), Report(2));
    Chain(h, [Adopt, Consume], [Serve, Report(2)]);
    assert BOOT == [Adopt, Consume] + [Serve, Report(2)];
  }

  lemma AdoptSecond(h: Host) returns (g: Host)
    requires h.image.phase.Booting? && h.req == Of(2) && 2 in h.published && h.adoptions == map[]
    ensures Runs(h, [Adopt, Consume]) && g == After(h, [Adopt, Consume])
    ensures g.image.phase.Consumed? && g.image.token == Some(2) && g.adoptions.Keys == {2}
    ensures g.published == h.published && g.reported == h.reported
    ensures g.adoptions[2].started == h.image.started && g.adoptions[2].binary == h.image.binary
  {
    Two(h, Adopt, Consume);
    g := Apply(Apply(h, Adopt), Consume);
  }
}
