/** What the cache protocol promises, over every run. */
module ProtocolTheorems {
  import opened Pieces
  import opened Entries
  import opened EntryLaws
  import opened Protocol
  import opened ProtocolInv
  import opened ProtocolSteps

  /** Piece of a byte is marked as held. */
  predicate Marked(w: World, i: nat) { i < w.e.size && PieceOf(i, w.ps) in w.e.bits }

  /** What a pread of the cache file answers: a hole reads as zero. */
  function CacheByte(w: World, i: nat): Byte { if i in w.e.cache then w.e.cache[i] else 0 }

  /* ---- another node's rewrites ---- */

  /** What the first look at another node's rewrite does, whatever the run before:
      nothing, when the size and the inode are those the entry knows and the mtime is
      not later; otherwise the marks and digests of the old object go. */
  lemma RewriteIsSeen(w: World, acts: seq<Action>, after: seq<Byte>, id: OriginId, cut: bool, saved: bool)
    requires Init(w) && Runs(w, acts) && OrderlyRun(w, acts)
    requires CanForeignRewrite(After(w, acts), id) && CanStat(After(w, acts), cut)
    ensures var u := After(w, acts);
      var v := DoForeignRewrite(u, after, id);
      var s := DoStat(v, |after|, id, cut, saved);
      if |after| == u.e.size && id.ino == u.e.id.ino &&
         (id.sec < u.e.id.sec || (id.sec == u.e.id.sec && id.nsec <= u.e.id.nsec)) then s == v
      else
        && s.e.bits == {} && s.e.hashes == map[] && s.e.writes == u.e.writes + 1
        && s.e.size == |after| && s.e.id == id
  {
    InitInv(w);
    RunKeepsInv(w, acts);
    LookAfterRewrite(After(w, acts), after, id, cut, saved);
  }

  lemma LookAfterRewrite(u: World, after: seq<Byte>, id: OriginId, cut: bool, saved: bool)
    requires u.e.id.known && CanForeignRewrite(u, id) && CanStat(u, cut)
    ensures var v := DoForeignRewrite(u, after, id);
      var s := DoStat(v, |after|, id, cut, saved);
      if |after| == u.e.size && !Detects(u.e.id, id) then s == v
      else
        && s.e.bits == {} && s.e.hashes == map[] && s.e.writes == u.e.writes + 1
        && s.e.size == |after| && s.e.id == id
  {
    var v := DoForeignRewrite(u, after, id);
    LookIs(v, |after|, id, cut, saved);
    ReconcileObeys(v.e, |after|, id, Busy(v), cut, saved, v.ps);
  }

  lemma LookIs(v: World, size: nat, id: OriginId, cut: bool, saved: bool)
    ensures var f := Reconcile(v.e, size, id, Busy(v), cut, saved, v.ps);
      DoStat(v, size, id, cut, saved).e == f && (f == v.e ==> DoStat(v, size, id, cut, saved) == v)
  {
  }

  /* ---- marks ---- */

  /** In every reachable world each marked piece holds the origin's bytes at the
      current size, except where a mutation in flight has already reached the
      origin: a write, a truncate, or another node's rewrite that no open has seen.
      Once the entry has the current identity only a write between its size step and
      its copy is left. A mark never names a hole, not even there. */
  lemma MarksAreHonest(w: World, acts: seq<Action>, i: nat)
    requires Init(w) && Runs(w, acts) && OrderlyRun(w, acts)
    requires Marked(After(w, acts), i)
    ensures var v := After(w, acts);
      && i in v.e.cache
      && (!InFlight(v.mut, i) ==> i < |v.origin| && v.e.cache[i] == v.origin[i])
      && (v.mut.Idle? ==> i < |v.origin| && v.e.cache[i] == v.origin[i])
      && (v.e.id == v.oid && !InWindow(v) ==> i < |v.origin| && v.e.cache[i] == v.origin[i])
  {
    InitInv(w);
    RunKeepsInv(w, acts);
    var v := After(w, acts);
    if v.e.id == v.oid {
      CurrentFlux(v, i);
    }
  }

  /** A trusted digest is the digest of the origin's bytes of that piece. */
  lemma DigestsAreTheOrigins(w: World, acts: seq<Action>, p: nat)
    requires Init(w) && Runs(w, acts) && OrderlyRun(w, acts)
    requires p in After(w, acts).e.hashes
    requires After(w, acts).mut.Idle? || (After(w, acts).e.id == After(w, acts).oid && !InWindow(After(w, acts)))
    ensures var v := After(w, acts);
      && v.e.hashes[p].of.Keys == PieceBytes(p, v.e.size, v.ps)
      && forall i :: i in v.e.hashes[p].of ==> i < |v.origin| && v.e.hashes[p].of[i] == v.origin[i]
  {
    InitInv(w);
    RunKeepsInv(w, acts);
    var v := After(w, acts);
    assert Agrees(v.e.hashes[p].of, OriginOf(v));
    forall i | i in v.e.hashes[p].of ensures i < |v.origin| && v.e.hashes[p].of[i] == v.origin[i] {
      if v.e.id == v.oid {
        CurrentFlux(v, i);
      }
    }
  }

  /** Whatever bytes a peer sent, what is admitted under a claim that still
      stands is the origin's, outside a range in flight. */
  lemma PeerBytesAreTheOrigins(w: World, acts: seq<Action>, p: nat, buf: Extent, i: nat)
    requires Init(w) && Runs(w, acts) && OrderlyRun(w, acts)
    requires CanPeerAdmit(After(w, acts), p, buf)
    requires After(w, acts).e.filling[p] == After(w, acts).e.writes
    requires i in buf && !InFlight(After(w, acts).mut, i)
    ensures i < |After(w, acts).origin| && buf[i] == After(w, acts).origin[i]
  {
    InitInv(w);
    RunKeepsInv(w, acts);
    var v := After(w, acts);
    assert FillOk(v.ps, p, v.fills[p], v.e.filling[p], v.e.writes, v.e.size, v.e.bits, OriginOf(v));
    assert i in v.fills[p].want.value.of;
  }

  predicate SameLoads(w: World, v: World) { v.e.loading == w.e.loading && v.loads == w.loads }


  lemma WriteKeepsLoads(w: World, a: Action)
    requires Enabled(w, a) && IsWriteStep(a) && !IsOwnLook(a)
    ensures SameLoads(w, Apply(w, a))
  {
  }

  /* The entry's own steps leave the load claim alone. */

  lemma GrowKeepsLoading(e: Entry, end: nat, deferred: bool, saved: bool, ps: Grid)
    ensures GrowTo(e, end, deferred, saved, ps).loading == e.loading
  {
  }

  lemma ReconcileKeepsLoading(e: Entry, size: nat, id: OriginId, busy: bool, cut: bool, saved: bool, ps: Grid)
    ensures Reconcile(e, size, id, busy, cut, saved, ps).loading == e.loading
  {
  }

  lemma TruncateKeepsLoading(e: Entry, n: nat, busy: bool, resized: bool, cut: bool, saved: bool, ps: Grid)
    ensures Truncate(e, n, busy, resized, cut, saved, ps).loading == e.loading
  {
  }

  lemma CopyMarkKeepsLoading(e: Entry, off: nat, data: seq<Byte>, copied: bool, saved: bool, ps: Grid)
    ensures CopyMark(e, off, data, copied, saved, ps).loading == e.loading
  {
  }

  lemma FillSizeKeepsLoading(e: Entry, end: nat, id: OriginId, busy: bool, deferred: bool, cut: bool, saved: bool,
      ps: Grid)
    ensures FillSize(e, end, id, busy, deferred, cut, saved, ps).loading == e.loading
  {
    GrowKeepsLoading(e, end, deferred, saved, ps);
  }

  lemma StatKeepsLoads(w: World, size: nat, id: OriginId, cut: bool, saved: bool)
    ensures SameLoads(w, DoStat(w, size, id, cut, saved))
  {
    ReconcileKeepsLoading(w.e, size, id, Busy(w), cut, saved, w.ps);
  }

  lemma RetryKeepsLoads(w: World, size: nat, id: OriginId, cut: bool, saved: bool)
    requires w.mut.Write?
    ensures SameLoads(w, DoOwnRetry(w, size, id, cut, saved))
  {
    ReconcileKeepsLoading(w.e, size, id, Busy(w), cut, saved, w.ps);
  }

  lemma OwnGrowKeepsLoads(w: World, deferred: bool, saved: bool)
    requires w.mut.Write? && w.mut.phase.Observed?
    ensures SameLoads(w, DoOwnGrow(w, deferred, saved))
  {
    GrowKeepsLoading(w.e, w.mut.off + |w.mut.data|, deferred, saved, w.ps);
  }

  lemma TruncApplyKeepsLoads(w: World, resized: bool, cut: bool, saved: bool)
    requires w.mut.Trunc?
    ensures SameLoads(w, DoTruncApply(w, resized, cut, saved))
  {
    TruncateKeepsLoading(w.e, w.mut.size, Busy(w), resized, cut, saved, w.ps);
  }

  lemma CopyEndKeepsLoads(w: World, saved: bool)
    requires CanCopyEnd(w)
    ensures SameLoads(w, DoCopyEnd(w, saved))
  {
    CopyMarkKeepsLoading(w.e, w.mut.off, w.mut.data, w.lock.copied, saved, w.ps);
  }

  lemma OwnNoteKeepsLoads(w: World, saved: bool)
    requires CanOwnNote(w)
    ensures SameLoads(w, DoOwnNote(w, saved))
  {
  }

  lemma DistrustKeepsLoads(w: World)
    ensures SameLoads(w, DoDistrust(w))
  {
  }

  lemma GivingUpKeepsLoads(w: World, id: OriginId, deferred: bool, cut: bool, saved: bool)
    requires w.mut.Write? && NoMemory(w.e, w.mut.off + |w.mut.data|, Busy(w), deferred)
    ensures SameLoads(w, DoOwnStat(w, w.mut.off + |w.mut.data|, id, deferred, cut, saved))
  {
  }

  lemma SizedKeepsLoads(w: World, f: Entry)
    requires w.mut.Write? && f.loading == w.e.loading
    ensures SameLoads(w, Noted(w, w.(e := f, mut := w.mut.(phase := Sized(f.id != w.e.id, None)))))
  {
  }

  lemma EndStatKeepsLoads(w: World, f: Entry, id: OriginId, deferred: bool, cut: bool, saved: bool)
    requires w.mut.Write? && f == FillSize(w.e, w.mut.off + |w.mut.data|, id, Busy(w), deferred, cut, saved, w.ps)
    requires f.loading == w.e.loading && !NoMemory(w.e, w.mut.off + |w.mut.data|, Busy(w), deferred)
    ensures SameLoads(w, DoOwnStat(w, w.mut.off + |w.mut.data|, id, deferred, cut, saved))
  {
    EndStatIs(w, f, id, deferred, cut, saved);
    SizedKeepsLoads(w, f);
  }

  lemma OwnStatKeepsLoads(w: World, size: nat, id: OriginId, deferred: bool, cut: bool, saved: bool)
    requires w.mut.Write?
    ensures SameLoads(w, DoOwnStat(w, size, id, deferred, cut, saved))
  {
    if size == w.mut.off + |w.mut.data| {
      if NoMemory(w.e, size, Busy(w), deferred) {
        GivingUpKeepsLoads(w, id, deferred, cut, saved);
      } else {
        var f := FillSize(w.e, size, id, Busy(w), deferred, cut, saved, w.ps);
        FillSizeKeepsLoading(w.e, size, id, Busy(w), deferred, cut, saved, w.ps);
        EndStatKeepsLoads(w, f, id, deferred, cut, saved);
      }
    } else {
      var f := Reconcile(w.e, size, id, Busy(w), cut, saved, w.ps);
      ReconcileKeepsLoading(w.e, size, id, Busy(w), cut, saved, w.ps);
      OtherStatIs(w, f, size, id, deferred, cut, saved);
    }
  }

  lemma LookKeepsLoads(w: World, a: Action)
    requires Enabled(w, a) && IsOwnLook(a)
    ensures SameLoads(w, Apply(w, a))
  {
    match a
    case OwnStat(size, id, deferred, cut, saved) => OwnStatKeepsLoads(w, size, id, deferred, cut, saved);
    case OwnRetry(size, id, cut, saved) => RetryKeepsLoads(w, size, id, cut, saved);
    case OwnGrow(deferred, saved) => OwnGrowKeepsLoads(w, deferred, saved);
    case OwnStatFail => DistrustKeepsLoads(w);
    case _ =>
  }

  lemma EntryKeepsLoads(w: World, a: Action)
    requires Enabled(w, a) && (a.Stat? || a.TruncApply? || a.CopyEnd? || a.OwnNote?)
    ensures SameLoads(w, Apply(w, a))
  {
    match a
    case Stat(size, id, cut, saved) => StatKeepsLoads(w, size, id, cut, saved);
    case TruncApply(resized, cut, saved) => TruncApplyKeepsLoads(w, resized, cut, saved);
    case CopyEnd(saved) => CopyEndKeepsLoads(w, saved);
    case OwnNote(saved) => OwnNoteKeepsLoads(w, saved);
    case _ =>
  }

  lemma TruncKeepsLoads(w: World, a: Action)
    requires Enabled(w, a) && (a.TruncIssue? || a.TruncLand? || a.TruncFail? || a.CopyPwrite?)
    ensures SameLoads(w, Apply(w, a))
  {
  }

  lemma HydrationKeepsLoads(w: World, a: Action)
    requires Enabled(w, a) && IsHydration(a)
    ensures SameLoads(w, Apply(w, a))
  {
  }

  lemma LandingKeepsLoads(w: World, a: Action)
    requires Enabled(w, a) && IsFillStep(a) && !IsHydration(a)
    ensures SameLoads(w, Apply(w, a))
  {
  }

  lemma PunchSaveKeepsLoads(w: World, p: nat, durable: bool, saved: bool)
    ensures SameLoads(w, DoPunchSave(w, p, durable, saved))
  {
  }

  lemma PunchCutKeepsLoads(w: World, ok: bool, saved: bool)
    requires w.lock.Punch?
    ensures SameLoads(w, DoPunchCut(w, ok, saved))
  {
  }

  lemma HealKeepsLoads(w: World, p: nat, saved: bool)
    ensures SameLoads(w, DoHeal(w, p, saved))
  {
  }

  /** Steps of cull and self-heal. */
  predicate IsPunch(a: Action) { a.PunchSave? || a.PunchCut? || a.Heal? }

  lemma CullKeepsLoads(w: World, a: Action)
    requires Enabled(w, a) && IsPunch(a)
    ensures SameLoads(w, Apply(w, a))
  {
    match a
    case PunchSave(p, durable, saved) => PunchSaveKeepsLoads(w, p, durable, saved);
    case PunchCut(ok, saved) => PunchCutKeepsLoads(w, ok, saved);
    case Heal(p, saved) => HealKeepsLoads(w, p, saved);
    case _ =>
  }

  lemma OriginKeepsLoads(w: World, a: Action)
    requires Enabled(w, a) && IsOriginStep(a)
    ensures SameLoads(w, Apply(w, a))
  {
  }

  /** Steps of a transfer or of a read that holds no lock. */
  predicate IsReadStep(a: Action) { a.BeginXfer? || a.Observe? || a.EndXfer? || a.RawBegin? || a.RawEnd? }

  lemma ReadKeepsLoads(w: World, a: Action)
    requires Enabled(w, a) && IsReadStep(a)
    ensures SameLoads(w, Apply(w, a))
  {
  }

  lemma LoadStepKeepsLoads(w: World, a: Action)
    requires Enabled(w, a) && (a.LoadStart? || a.LoadFail? || a.LoadMerge?) && Loads(w.e.loading, w.loads)
    ensures Loads(Apply(w, a).e.loading, Apply(w, a).loads)
  {
  }

  lemma LocalKeepsLoads(w: World, a: Action)
    requires Enabled(w, a) && (IsWriteStep(a) || IsCopyStep(a) || IsFillStep(a))
    ensures SameLoads(w, Apply(w, a))
  {
    if IsOwnLook(a) {
      LookKeepsLoads(w, a);
    } else if a.TruncApply? || a.CopyEnd? || a.OwnNote? {
      EntryKeepsLoads(w, a);
    } else if IsWriteStep(a) {
      WriteKeepsLoads(w, a);
    } else if IsCopyStep(a) {
      TruncKeepsLoads(w, a);
    } else if IsHydration(a) {
      HydrationKeepsLoads(w, a);
    } else {
      LandingKeepsLoads(w, a);
    }
  }

  lemma StepKeepsLoads(w: World, a: Action)
    requires Enabled(w, a) && Loads(w.e.loading, w.loads)
    ensures Loads(Apply(w, a).e.loading, Apply(w, a).loads)
  {
    if IsWriteStep(a) || IsCopyStep(a) || IsFillStep(a) {
      LocalKeepsLoads(w, a);
    } else if a.LoadStart? || a.LoadFail? || a.LoadMerge? {
      LoadStepKeepsLoads(w, a);
    } else if a.Crash? {
      ReloadRestarts(w, a.look);
    } else if IsOriginStep(a) {
      OriginKeepsLoads(w, a);
    } else if a.Stat? {
      EntryKeepsLoads(w, a);
    } else if IsCullStep(a) {
      CullKeepsLoads(w, a);
    } else {
      ReadKeepsLoads(w, a);
    }
  }

  lemma {:induction false} RunKeepsLoads(w: World, acts: seq<Action>)
    requires Loads(w.e.loading, w.loads) && Runs(w, acts)
    ensures Loads(After(w, acts).e.loading, After(w, acts).loads)
    decreases |acts|
  {
    if acts == [] {
    } else {
      StepKeepsLoads(w, acts[0]);
      RunKeepsLoads(Apply(w, acts[0]), acts[1..]);
    }
  }

  /** At most one manifest load runs, the claim is held exactly as long, and
      every way a load can end gives it back. In every run, orderly or not. */
  lemma OneManifestLoad(w: World, acts: seq<Action>, t: nat)
    requires Init(w) && Runs(w, acts)
    requires t in After(w, acts).loads
    ensures var v := After(w, acts);
      && v.loads.Keys == {t} && v.e.loading
      && (forall u :: !CanLoadStart(v, u))
      && (forall remember :: !DoLoadFail(v, t, remember).e.loading)
      && (forall m :: !DoLoadMerge(v, t, m).e.loading)
  {
    RunKeepsLoads(w, acts);
    ManifestExitsRelease(After(w, acts), t);
  }

  lemma ManifestExitsRelease(v: World, t: nat)
    requires t in v.loads
    ensures forall remember :: !DoLoadFail(v, t, remember).e.loading
    ensures forall m :: !DoLoadMerge(v, t, m).e.loading
  {
  }

  /* ---- manifest merges ---- */

  /** The digests of an object all of whose bytes are b, for one piece. */
  function Uniform(w: World, p: nat, b: Byte, identity: Option<OriginId>): Manifest {
    Manifest(w.ps, w.e.size, map[p := Blake3(map i | i in PieceBytes(p, w.e.size, w.ps) :: b)], identity, false)
  }

  lemma UniformIsInOrder(w: World, p: nat, b: Byte, named: bool)
    requires Shape(w) && p < MAX_PIECES && Offset(p, w.ps) < w.e.size && !(named && w.e.id == w.oid)
    ensures var m := Uniform(w, p, b, if named then Some(w.e.id) else None);
      Gridded(m) && PublishedOk(m, w.origin, w.oid)
  {
    assert Ids(OriginOf(w), w.e.sidecar);
  }

  function ThirdByte(x: Option<Byte>, y: Option<Byte>): (b: Byte)
    ensures Some(b) != x && Some(b) != y
  {
    if x != Some(0) && y != Some(0) then 0 else if x != Some(1) && y != Some(1) then 1 else 2
  }

  /** A piece that relies on a byte does not survive every manifest. */
  lemma UnfitManifest(w: World, t: nat, i: nat, named: bool) returns (m: Manifest)
    requires Inv(w) && FileMuFree(w) && t in w.loads && w.loads[t] == w.e.writes
    requires i < w.e.size && PieceOf(i, w.ps) < MAX_PIECES && PieceOf(i, w.ps) !in w.e.hashes
    requires !(named && w.e.id == w.oid) && !Immune(w, i)
    ensures Admissible(w, m, named) && !MergeFits(w, t, m)
  {
    var p := PieceOf(i, w.ps);
    var b := ThirdByte(if i < |w.origin| then Some(w.origin[i]) else None,
        if i in w.e.cache then Some(w.e.cache[i]) else None);
    m := Uniform(w, p, b, if named then Some(w.e.id) else None);
    PieceRange(i, p, w.ps);
    UniformIsInOrder(w, p, b, named);
    assert i in PieceBytes(p, w.e.size, w.ps);
    assert m.entries[p].of[i] == b;
    assert ManifestFits(w.e, m, w.loads[t], w.ps);
    assert !DigestFits(w, p, m.entries[p]);
  }

  /** The object's own digest of piece p. */
  function Own(w: World, p: nat): Manifest
    requires w.e.size == |w.origin|
  {
    Manifest(w.ps, w.e.size, map[p := Blake3(map i | i in PieceBytes(p, w.e.size, w.ps) :: w.origin[i])], Some(w.oid),
        false)
  }

  lemma UnmatchedOwn(w: World, t: nat, i: nat)
    requires Inv(w) && FileMuFree(w) && t in w.loads && w.loads[t] == w.e.writes
    requires i < w.e.size && PieceOf(i, w.ps) < MAX_PIECES && PieceOf(i, w.ps) !in w.e.hashes
    requires w.e.id == w.oid && !Matched(w, i)
    ensures w.e.size == |w.origin|
    ensures var m := Own(w, PieceOf(i, w.ps)); Admissible(w, m, true) && !MergeFits(w, t, m)
  {
    var p := PieceOf(i, w.ps);
    var m := Own(w, p);
    PieceRange(i, p, w.ps);
    assert Describes(m, w.origin);
    assert i in PieceBytes(p, w.e.size, w.ps);
    assert m.entries[p].of[i] == w.origin[i];
    assert ManifestFits(w.e, m, w.loads[t], w.ps);
    assert !DigestFits(w, p, m.entries[p]);
  }

  /** A manifest that may lie on the origin. One that names an older identity, or
      none, may have any bytes: between the landing of a write and its size step a
      fill records new bytes under the old identity, and a close publishes them. */
  ghost predicate Admissible(w: World, m: Manifest, named: bool) {
    Gridded(m) && m.identity.Some? == named && PublishedOk(m, w.origin, w.oid)
  }

  /** Every manifest that may lie on the origin merges safely exactly when the pieces
      still without a digest can take any: for one that names its identity, when the
      entry's identity is current and no marked byte is behind, or when nothing relies
      on those pieces; for one that names none, only the latter. */
  lemma MergesSafely(w: World, t: nat, named: bool)
    requires Inv(w) && FileMuFree(w) && t in w.loads && w.loads[t] == w.e.writes
    ensures (forall m :: Admissible(w, m, named) ==> Inv(DoLoadMerge(w, t, m))) <==> TakesAny(w, named)
  {
    if TakesAny(w, named) {
      forall m | Admissible(w, m, named) ensures Inv(DoLoadMerge(w, t, m)) {
        AnyFits(w, t, m);
        KeepLoadMerge(w, t, m);
      }
    } else {
      var i: nat :| i < w.e.size && PieceOf(i, w.ps) < MAX_PIECES && PieceOf(i, w.ps) !in w.e.hashes &&
                    !(if named && w.e.id == w.oid then Matched(w, i) else Immune(w, i));
      var m := UnfitAt(w, t, i, named);
      KeepLoadMerge(w, t, m);
    }
  }

  lemma UnfitAt(w: World, t: nat, i: nat, named: bool) returns (m: Manifest)
    requires Inv(w) && FileMuFree(w) && t in w.loads && w.loads[t] == w.e.writes
    requires i < w.e.size && PieceOf(i, w.ps) < MAX_PIECES && PieceOf(i, w.ps) !in w.e.hashes
    requires !(if named && w.e.id == w.oid then Matched(w, i) else Immune(w, i))
    ensures Admissible(w, m, named) && !MergeFits(w, t, m)
  {
    if named && w.e.id == w.oid {
      UnmatchedOwn(w, t, i);
      m := Own(w, PieceOf(i, w.ps));
    } else {
      m := UnfitManifest(w, t, i, named);
    }
  }

  /** The check the entry could make by itself: a current identity, and no write
      between its size step and its copy. */
  lemma CurrentTakesAny(w: World)
    requires Inv(w) && w.e.id == w.oid && !InWindow(w)
    ensures TakesAny(w, true)
  {
    forall i: nat | i < w.e.size ensures Matched(w, i) {
      CurrentFlux(w, i);
    }
  }

  /** In every reachable world whatever was published under the current identity, at
      the current size, describes the object: the oracle of verified peer fills, as
      long as no publish breaks `PublishFits` and other nodes' are in order. */
  lemma PublishedDescribes(w: World, acts: seq<Action>, m: Manifest)
    requires Init(w) && Runs(w, acts) && OrderlyRun(w, acts)
    requires var v := After(w, acts); m in v.published && m.identity == Some(v.oid) && m.size == |v.origin|
    ensures Describes(m, After(w, acts).origin)
  {
    InitInv(w);
    RunKeepsInv(w, acts);
    assert PublishedOk(m, After(w, acts).origin, After(w, acts).oid);
  }

  /** Steps whose only promise is that nobody publishes between a write's size step
      and its copy, and nobody merges then, nor under another identity or none. */
  ghost predicate Guarded(w: World, a: Action) {
    match a
    case Publish(_) => !InWindow(w)
    case LoadMerge(_, m) => w.e.id == w.oid && !InWindow(w) && m.identity.Some?
    case _ => Orderly(w, a)
  }

  /** What a current entry admits names the current object at its size, so it is what
      was published of it. */
  lemma GuardedMergeFits(w: World, t: nat, m: Manifest)
    requires Inv(w) && CanLoadMerge(w, t, m) && w.e.id == w.oid && !InWindow(w) && m.identity.Some?
    ensures MergeFits(w, t, m)
  {
    if ManifestFits(w.e, m, w.loads[t], w.ps) {
      AgeIsNothing(m, false, w.origin, w.oid);
      CurrentTakesAny(w);
      AnyFits(w, t, m);
    }
  }

  ghost predicate GuardedRun(w: World, acts: seq<Action>)
    requires Runs(w, acts)
    decreases |acts|
  {
    acts == [] || (Guarded(w, acts[0]) && GuardedRun(Apply(w, acts[0]), acts[1..]))
  }

  /** The guard that the code lacks is enough: with it no publish and no merge needs a
      condition on contents. */
  lemma {:induction false} GuardedIsOrderly(w: World, acts: seq<Action>)
    requires Inv(w) && Runs(w, acts) && GuardedRun(w, acts)
    ensures OrderlyRun(w, acts)
    decreases |acts|
  {
    if acts == [] {
    } else {
      if acts[0].LoadMerge? {
        GuardedMergeFits(w, acts[0].t, acts[0].m);
      }
      assert Orderly(w, acts[0]);
      StepKeepsInv(w, acts[0]);
      GuardedIsOrderly(Apply(w, acts[0]), acts[1..]);
    }
  }

  /* ---- read your own writes ---- */

  /** A later mutation that may change byte i, another node's included. */
  predicate Touches(a: Action, i: nat) {
    (a.WriteIssue? && InRange(a.off, |a.data|, i)) || (a.TruncIssue? && a.n <= i) || a.ForeignRewrite?
  }

  /** Nothing in flight covers byte i, and every transfer begun since that saw
      its piece marked still reads the origin's byte. */
  ghost predicate Settled(w: World, i: nat, b: Byte, before: set<nat>) {
    && !InFlight(w.mut, i) && i < |w.origin| && w.origin[i] == b
    && (forall r :: r in w.readers && r !in before && i in w.readers[r].seen ==> i in w.readers[r].clean)
  }

  predicate MovesOrigin(a: Action) { a.WriteTear? || a.WriteLand? || a.TruncLand? || a.ForeignRewrite? }

  predicate MovesReaders(a: Action) { a.BeginXfer? || a.Observe? || a.EndXfer? || a.Crash? }

  /** A step that leaves the origin and the transfers alone and, under a
      transfer, the cache file and the bitfield's storage too. */
  predicate Calm(w: World, v: World) {
    && v.ps == w.ps && v.origin == w.origin && v.readers == w.readers
    && (Busy(w) ==> v.e.cache == w.e.cache && v.e.storage == w.e.storage)
  }

  /** The mutation in flight covers no byte it did not cover before. */
  predicate NoWider(w: World, v: World) {
    v.mut.Idle? || v.mut == w.mut || (w.mut.Write? && v.mut.Write? && v.mut == w.mut.(phase := v.mut.phase))
  }

  predicate Still(w: World, v: World) { Calm(w, v) && NoWider(w, v) && v.e.size == w.e.size && v.e.nbits == w.e.nbits }

  predicate SameFile(e: Entry, f: Entry) { f.cache == e.cache && f.storage == e.storage }

  /** The in-place arms: a transfer keeps the buffer and the cache file. */
  lemma ReconcileInPlace(e: Entry, size: nat, id: OriginId, saved: bool, ps: Grid)
    ensures SameFile(e, Reconcile(e, size, id, true, false, saved, ps))
  {
  }

  lemma GrowInPlace(e: Entry, end: nat, saved: bool, ps: Grid)
    ensures SameFile(e, GrowTo(e, end, true, saved, ps))
  {
  }

  lemma FillSizeInPlace(e: Entry, end: nat, id: OriginId, saved: bool, ps: Grid)
    ensures SameFile(e, FillSize(e, end, id, true, true, false, saved, ps))
  {
    if end > e.size {
      GrowInPlace(e, end, saved, ps);
    }
  }

  lemma OwnStatIsCalm(w: World, size: nat, id: OriginId, deferred: bool, cut: bool, saved: bool)
    requires CanOwnStat(w, deferred, cut)
    ensures Calm(w, DoOwnStat(w, size, id, deferred, cut, saved)) &&
            NoWider(w, DoOwnStat(w, size, id, deferred, cut, saved))
  {
    if size == w.mut.off + |w.mut.data| {
      OwnFillSizeIsCalm(w, id, deferred, cut, saved);
    } else if Busy(w) {
      ReconcileInPlace(w.e, size, id, saved, w.ps);
    }
  }

  lemma OwnFillSizeIsCalm(w: World, id: OriginId, deferred: bool, cut: bool, saved: bool)
    requires CanOwnStat(w, deferred, cut)
    ensures var v := DoOwnStat(w, w.mut.off + |w.mut.data|, id, deferred, cut, saved); Calm(w, v) && NoWider(w, v)
  {
    if Busy(w) {
      FillSizeInPlace(w.e, w.mut.off + |w.mut.data|, id, saved, w.ps);
    }
  }

  lemma OwnRetryIsCalm(w: World, size: nat, id: OriginId, cut: bool, saved: bool)
    requires CanOwnRetry(w, cut)
    ensures Calm(w, DoOwnRetry(w, size, id, cut, saved)) && NoWider(w, DoOwnRetry(w, size, id, cut, saved))
  {
    if Busy(w) {
      ReconcileInPlace(w.e, size, id, saved, w.ps);
    }
  }

  lemma OwnGrowIsCalm(w: World, deferred: bool, saved: bool)
    requires CanOwnGrow(w, deferred)
    ensures Calm(w, DoOwnGrow(w, deferred, saved)) && NoWider(w, DoOwnGrow(w, deferred, saved))
  {
    if Busy(w) {
      GrowInPlace(w.e, w.mut.off + |w.mut.data|, saved, w.ps);
    }
  }

  lemma StatIsCalm(w: World, size: nat, id: OriginId, cut: bool, saved: bool)
    requires CanStat(w, cut)
    ensures Calm(w, DoStat(w, size, id, cut, saved)) && NoWider(w, DoStat(w, size, id, cut, saved))
  {
    if Busy(w) {
      ReconcileInPlace(w.e, size, id, saved, w.ps);
    }
  }

  lemma CopyPwriteIsCalm(w: World, keep: set<nat>)
    requires CanCopyPwrite(w)
    ensures Still(w, DoCopyPwrite(w, keep))
  {
  }

  lemma CopyEndIsCalm(w: World, saved: bool)
    requires CanCopyEnd(w)
    ensures Still(w, DoCopyEnd(w, saved))
  {
  }

  lemma OwnNoteIsCalm(w: World, saved: bool)
    requires CanOwnNote(w)
    ensures Still(w, DoOwnNote(w, saved))
  {
  }

  lemma ClaimIsCalm(w: World, p: nat, buf: Extent)
    ensures Still(w, DoBeginFill(w, p))
    ensures p in w.fills ==> Still(w, DoHold(w, p, buf))
    ensures p in w.fills ==> Still(w, DoWantHash(w, p))
  {
  }

  lemma AbortIsCalm(w: World, p: nat, saved: bool)
    ensures Still(w, DoAbortFill(w, p, saved))
  {
  }

  lemma CheckIsCalm(w: World, p: nat)
    requires CanFillCheck(w, p)
    ensures Still(w, DoFillCheck(w, p))
  {
  }

  lemma FinishPieceInPlace(e: Entry, p: nat, ok: bool, len: nat, hash: Digest, saved: bool, ps: Grid)
    ensures var f := FinishPiece(e, p, ok, len, hash, saved, ps);
            SameFile(e, f) && f.size == e.size && f.nbits == e.nbits
  {
  }

  lemma FillEndIsCalm(w: World, saved: bool)
    requires CanFillEnd(w)
    ensures Still(w, DoFillEnd(w, saved))
  {
    var p := w.lock.piece;
    FinishPieceInPlace(w.e, p, w.lock.written, w.fills[p].len, Blake3(w.lock.buf), saved, w.ps);
  }

  lemma PunchSaveIsCalm(w: World, p: nat, durable: bool, saved: bool)
    ensures Still(w, DoPunchSave(w, p, durable, saved))
  {
  }

  lemma PunchCutIsCalm(w: World, ok: bool, saved: bool)
    requires w.lock.Punch?
    ensures Still(w, DoPunchCut(w, ok, saved))
  {
  }

  lemma HealIsCalm(w: World, p: nat, saved: bool)
    ensures Still(w, DoHeal(w, p, saved))
  {
  }

  lemma LoadIsCalm(w: World, t: nat, m: Manifest, remember: bool)
    ensures Still(w, DoLoadStart(w, t))
    ensures Still(w, DoLoadFail(w, t, remember))
    ensures t in w.loads ==> Still(w, DoLoadMerge(w, t, m))
  {
  }

  lemma TearIsCalm(w: World, bare: bool)
    ensures Still(w, DoTearSidecar(w, bare))
  {
  }

  /** The steps that may move the recorded size. */
  predicate Sizing(a: Action) { a.OwnStat? || a.OwnRetry? || a.OwnGrow? || a.Stat? || a.TruncApply? || a.Crash? }

  /** Steps that are neither the origin's, a transfer's, a restart, an issue, a
      landing pwrite nor a truncate's. */
  predicate Plain(a: Action) {
    !MovesOrigin(a) && !MovesReaders(a) && !a.WriteIssue? && !a.TruncIssue? && !a.FillPwrite? && !a.TruncApply?
  }

  lemma PlainWriteStep(w: World, a: Action)
    requires Enabled(w, a) && Plain(a) && (IsWriteStep(a) || IsCopyStep(a))
    ensures if Sizing(a) then Calm(w, Apply(w, a)) && NoWider(w, Apply(w, a)) else Still(w, Apply(w, a))
  {
    match a
    case OwnStat(size, id, deferred, cut, saved) => OwnStatIsCalm(w, size, id, deferred, cut, saved);
    case OwnRetry(size, id, cut, saved) => OwnRetryIsCalm(w, size, id, cut, saved);
    case OwnGrow(deferred, saved) => OwnGrowIsCalm(w, deferred, saved);
    case CopyPwrite(keep) => CopyPwriteIsCalm(w, keep);
    case CopyEnd(saved) => CopyEndIsCalm(w, saved);
    case OwnNote(saved) => OwnNoteIsCalm(w, saved);
    case _ =>
  }

  lemma PlainFillStep(w: World, a: Action)
    requires Enabled(w, a) && Plain(a) && IsFillStep(a)
    ensures if Sizing(a) then Calm(w, Apply(w, a)) && NoWider(w, Apply(w, a)) else Still(w, Apply(w, a))
  {
    match a
    case BeginFill(p) => ClaimIsCalm(w, p, map[]);
    case OriginRead(p, buf) => ClaimIsCalm(w, p, buf);
    case WantHash(p) => ClaimIsCalm(w, p, map[]);
    case PeerAdmit(p, buf) => ClaimIsCalm(w, p, buf);
    case AbortFill(p, saved) => AbortIsCalm(w, p, saved);
    case FillCheck(p) => CheckIsCalm(w, p);
    case FillEnd(saved) => FillEndIsCalm(w, saved);
    case _ =>
  }

  lemma PlainOtherStep(w: World, a: Action)
    requires Enabled(w, a) && Plain(a) && !IsWriteStep(a) && !IsCopyStep(a) && !IsFillStep(a)
    ensures if Sizing(a) then Calm(w, Apply(w, a)) && NoWider(w, Apply(w, a)) else Still(w, Apply(w, a))
  {
    match a
    case Stat(size, id, cut, saved) => StatIsCalm(w, size, id, cut, saved);
    case PunchSave(p, durable, saved) => PunchSaveIsCalm(w, p, durable, saved);
    case PunchCut(ok, saved) => PunchCutIsCalm(w, ok, saved);
    case Heal(p, saved) => HealIsCalm(w, p, saved);
    case LoadStart(t) => LoadIsCalm(w, t, Manifest(w.ps, 0, map[], None, false), false);
    case LoadFail(t, remember) => LoadIsCalm(w, t, Manifest(w.ps, 0, map[], None, false), remember);
    case LoadMerge(t, m) => LoadIsCalm(w, t, m, false);
    case TearSidecar(bare) => TearIsCalm(w, bare);
    case _ =>
  }

  lemma PlainStep(w: World, a: Action)
    requires Enabled(w, a) && Plain(a)
    ensures if Sizing(a) then Calm(w, Apply(w, a)) && NoWider(w, Apply(w, a)) else Still(w, Apply(w, a))
  {
    if IsWriteStep(a) || IsCopyStep(a) {
      PlainWriteStep(w, a);
    } else if IsFillStep(a) {
      PlainFillStep(w, a);
    } else {
      PlainOtherStep(w, a);
    }
  }

  lemma SettledMove(w: World, a: Action, i: nat, b: Byte, before: set<nat>)
    requires Settled(w, i, b, before) && Enabled(w, a) && MovesOrigin(a) && !Touches(a, i)
    ensures Settled(Apply(w, a), i, b, before)
  {
  }

  lemma SettledReader(w: World, a: Action, i: nat, b: Byte, before: set<nat>)
    requires Settled(w, i, b, before) && Enabled(w, a) && MovesReaders(a)
    ensures Settled(Apply(w, a), i, b, before)
  {
  }

  lemma SettledIssue(w: World, a: Action, i: nat, b: Byte, before: set<nat>)
    requires Settled(w, i, b, before) && Enabled(w, a) && !Touches(a, i)
    requires a.WriteIssue? || a.TruncIssue? || a.FillPwrite? || a.TruncApply?
    ensures Settled(Apply(w, a), i, b, before)
  {
  }

  lemma SettledStep(w: World, a: Action, i: nat, b: Byte, before: set<nat>)
    requires Settled(w, i, b, before) && Enabled(w, a) && !Touches(a, i)
    ensures Settled(Apply(w, a), i, b, before)
  {
    if MovesOrigin(a) {
      SettledMove(w, a, i, b, before);
    } else if MovesReaders(a) {
      SettledReader(w, a, i, b, before);
    } else if Plain(a) {
      PlainStep(w, a);
    } else {
      SettledIssue(w, a, i, b, before);
    }
  }

  lemma {:induction false} SettledRun(w: World, acts: seq<Action>, i: nat, b: Byte, before: set<nat>)
    requires Settled(w, i, b, before) && Runs(w, acts) && forall a :: a in acts ==> !Touches(a, i)
    ensures Settled(After(w, acts), i, b, before)
    decreases |acts|
  {
    if acts == [] {
    } else {
      SettledStep(w, acts[0], i, b, before);
      SettledRun(Apply(w, acts[0]), acts[1..], i, b, before);
    }
  }

  /* ---- the recorded size does not fall below a byte the origin has ---- */

  lemma IssueKeepsSize(w: World, a: Action)
    requires Enabled(w, a) && (a.WriteIssue? || a.TruncIssue? || a.FillPwrite?)
    ensures Apply(w, a).e.size == w.e.size && Apply(w, a).e.nbits == w.e.nbits && Apply(w, a).ps == w.ps
  {
  }

  lemma ReadersKeepEntry(w: World, a: Action)
    requires Enabled(w, a) && (a.BeginXfer? || a.Observe? || a.EndXfer?)
    ensures Apply(w, a).e == w.e && Apply(w, a).ps == w.ps
  {
  }

  lemma OddKeepsSize(w: World, a: Action)
    requires Enabled(w, a) && !Plain(a) && !Sizing(a)
    ensures Apply(w, a).e.size == w.e.size && Apply(w, a).e.nbits == w.e.nbits && Apply(w, a).ps == w.ps
  {
    if MovesOrigin(a) {
      MoveUnderTransfer(w, a);
    } else if MovesReaders(a) {
      ReadersKeepEntry(w, a);
    } else {
      IssueKeepsSize(w, a);
    }
  }

  lemma GrowReaches(e: Entry, end: nat, deferred: bool, saved: bool, ps: Grid)
    ensures GrowTo(e, end, deferred, saved, ps).size == if end <= e.size then e.size else end
  {
  }

  lemma ReconcileReaches(e: Entry, size: nat, id: OriginId, busy: bool, cut: bool, saved: bool, ps: Grid)
    ensures Reconcile(e, size, id, busy, cut, saved, ps).size == size
  {
  }

  lemma FillSizeReaches(e: Entry, end: nat, id: OriginId, busy: bool, deferred: bool, cut: bool, saved: bool, ps: Grid)
    ensures FillSize(e, end, id, busy, deferred, cut, saved, ps).size ==
            if NoMemory(e, end, busy, deferred) then e.size else end
  {
    GrowReaches(e, end, deferred, saved, ps);
  }

  lemma TruncateReaches(e: Entry, n: nat, busy: bool, resized: bool, cut: bool, saved: bool, ps: Grid)
    ensures Truncate(e, n, busy, resized, cut, saved, ps).size == n
  {
  }

  /** In every reachable world an entry at the current identity has the origin's
      size, also while a transfer defers everything else; a truncate brings the
      size along before the identity follows. */
  lemma SizeFollowsOrigin(w: World, acts: seq<Action>, resized: bool, cut: bool, saved: bool)
    requires Init(w) && Runs(w, acts) && OrderlyRun(w, acts)
    ensures var v := After(w, acts);
      && (v.e.id == v.oid ==> v.e.size == |v.origin|)
      && (CanTruncApply(v, cut) ==> DoTruncApply(v, resized, cut, saved).e.size == |v.origin|)
  {
    InitInv(w);
    RunKeepsInv(w, acts);
    var v := After(w, acts);
    if CanTruncApply(v, cut) {
      TruncateReaches(v.e, v.mut.size, Busy(v), resized, cut, saved, v.ps);
    }
  }

  /** With nothing in flight the entry never claims more bytes than the origin has. */
  lemma SizeNeverLeads(w: World, acts: seq<Action>)
    requires Init(w) && Runs(w, acts) && OrderlyRun(w, acts) && After(w, acts).mut.Idle?
    ensures After(w, acts).e.size <= |After(w, acts).origin|
  {
    InitInv(w);
    RunKeepsInv(w, acts);
  }

  lemma GivingUpReaches(w: World, id: OriginId, deferred: bool, cut: bool, saved: bool)
    requires w.mut.Write? && NoMemory(w.e, w.mut.off + |w.mut.data|, Busy(w), deferred)
    ensures DoOwnStat(w, w.mut.off + |w.mut.data|, id, deferred, cut, saved).e.size >= w.mut.off + |w.mut.data|
  {
  }

  lemma EndStatReaches(w: World, id: OriginId, deferred: bool, cut: bool, saved: bool)
    requires w.mut.Write? && !NoMemory(w.e, w.mut.off + |w.mut.data|, Busy(w), deferred)
    ensures DoOwnStat(w, w.mut.off + |w.mut.data|, id, deferred, cut, saved).e.size == w.mut.off + |w.mut.data|
  {
    var end := w.mut.off + |w.mut.data|;
    var f := FillSize(w.e, end, id, Busy(w), deferred, cut, saved, w.ps);
    FillSizeReaches(w.e, end, id, Busy(w), deferred, cut, saved, w.ps);
    EndStatIs(w, f, id, deferred, cut, saved);
  }

  lemma OtherStatReaches(w: World, size: nat, id: OriginId, deferred: bool, cut: bool, saved: bool)
    requires w.mut.Write? && size != w.mut.off + |w.mut.data|
    ensures DoOwnStat(w, size, id, deferred, cut, saved).e.size == size
  {
    var f := Reconcile(w.e, size, id, Busy(w), cut, saved, w.ps);
    ReconcileReaches(w.e, size, id, Busy(w), cut, saved, w.ps);
    OtherStatIs(w, f, size, id, deferred, cut, saved);
  }

  lemma OwnStatReaches(w: World, size: nat, id: OriginId, deferred: bool, cut: bool, saved: bool)
    requires w.mut.Write?
    ensures DoOwnStat(w, size, id, deferred, cut, saved).e.size >= size
  {
    if size != w.mut.off + |w.mut.data| {
      OtherStatReaches(w, size, id, deferred, cut, saved);
    } else if NoMemory(w.e, size, Busy(w), deferred) {
      GivingUpReaches(w, id, deferred, cut, saved);
    } else {
      EndStatReaches(w, id, deferred, cut, saved);
    }
  }

  lemma OtherStatIs(w: World, f: Entry, size: nat, id: OriginId, deferred: bool, cut: bool, saved: bool)
    requires w.mut.Write? && size != w.mut.off + |w.mut.data| &&
          f == Reconcile(w.e, size, id, Busy(w), cut, saved, w.ps)
    ensures DoOwnStat(w, size, id, deferred, cut, saved) ==
            Noted(w, w.(e := f, mut := w.mut.(phase := Observed(Some(id)))))
  {
  }

  /** A stat that shows a size at or below byte i, a restart's included. */
  predicate Hides(a: Action, i: nat) {
    ((a.OwnStat? || a.OwnRetry? || a.Stat?) && a.size <= i) || (a.Crash? && a.look.size <= i)
  }

  lemma RetryReaches(w: World, size: nat, id: OriginId, cut: bool, saved: bool)
    requires w.mut.Write?
    ensures DoOwnRetry(w, size, id, cut, saved).e.size == size
  {
    ReconcileReaches(w.e, size, id, Busy(w), cut, saved, w.ps);
  }

  lemma StatReaches(w: World, size: nat, id: OriginId, cut: bool, saved: bool)
    ensures DoStat(w, size, id, cut, saved).e.size == size
  {
    ReconcileReaches(w.e, size, id, Busy(w), cut, saved, w.ps);
  }

  lemma OwnGrowReaches(w: World, deferred: bool, saved: bool)
    requires CanOwnGrow(w, deferred)
    ensures DoOwnGrow(w, deferred, saved).e.size >= w.e.size
  {
    GrowReaches(w.e, w.mut.off + |w.mut.data|, deferred, saved, w.ps);
  }

  lemma StatSizing(w: World, a: Action, i: nat)
    requires Enabled(w, a) && (a.OwnStat? || a.OwnRetry? || a.Stat?) && !Hides(a, i)
    ensures i < Apply(w, a).e.size
  {
    match a
    case OwnStat(size, id, deferred, cut, saved) => OwnStatReaches(w, size, id, deferred, cut, saved);
    case OwnRetry(size, id, cut, saved) => RetryReaches(w, size, id, cut, saved);
    case Stat(size, id, cut, saved) => StatReaches(w, size, id, cut, saved);
    case _ =>
  }

  lemma SizingReaches(w: World, a: Action, i: nat)
    requires Enabled(w, a) && Sizing(a) && !Hides(a, i)
    requires i < w.e.size && i < |w.origin| && !InFlight(w.mut, i)
    ensures i < Apply(w, a).e.size
  {
    if a.OwnStat? || a.OwnRetry? || a.Stat? {
      StatSizing(w, a, i);
    } else if a.Crash? {
      ReloadRestarts(w, a.look);
    } else if a.OwnGrow? {
      OwnGrowReaches(w, a.deferred, a.saved);
    } else if a.TruncApply? {
      TruncateReaches(w.e, w.mut.size, Busy(w), a.resized, a.cut, a.saved, w.ps);
    }
  }

  lemma {:induction false} ReachesRun(w: World, acts: seq<Action>, i: nat, b: Byte, before: set<nat>)
    requires Inv(w) && Settled(w, i, b, before) && i < w.e.size
    requires Runs(w, acts) && OrderlyRun(w, acts) && forall a :: a in acts ==> !Touches(a, i) && !Hides(a, i)
    ensures i < After(w, acts).e.size
    decreases |acts|
  {
    if acts == [] {
    } else {
      var a := acts[0];
      StepKeepsInv(w, a);
      SettledStep(w, a, i, b, before);
      if Sizing(a) {
        SizingReaches(w, a, i);
      } else if Plain(a) {
        PlainStep(w, a);
      } else {
        OddKeepsSize(w, a);
      }
      ReachesRun(Apply(w, a), acts[1..], i, b, before);
    }
  }

  /** The shrink of the size step finds no memory. */
  predicate GivesUp(w: World, a: Action)
    requires w.mut.Write?
  {
    a.OwnStat? && a.size == w.mut.off + |w.mut.data| && NoMemory(w.e, a.size, Busy(w), a.deferred)
  }

  /** The write returns: its copy landed, failed or was refused under a transfer,
      or its result could not be observed or recorded and the marks were dropped. */
  predicate Returns(w: World, a: Action) {
    w.mut.Write? &&
    ((a.CopyEnd? && CanCopyEnd(w) && w.mut.phase.note.None?) || a.OwnNote? || a.OwnStatFail? || GivesUp(w, a))
  }

  /** The entry covers byte i when the write returns: always after its copy; after
      every other exit exactly if it did before. */
  predicate Reached(w: World, a: Action, i: nat) { a.CopyEnd? || i < w.e.size }

  /** After a local write returned by any of its exits, every later read served from
      the cache gives back the written byte, until another write or truncate covers
      it, and so does the origin, which serves the reads the cache does not. A read
      right after the return is not cut short before it exactly if the write was
      copied or the entry covered it before, and later reads are not either unless a
      stat that lags behind the write is applied. */
  lemma ReadsSeeOwnWrites(w: World, a: Action, acts: seq<Action>, i: nat, r: nat)
    requires Inv(w) && Enabled(w, a) && Returns(w, a) && InFlight(w.mut, i)
    requires Runs(Apply(w, a), acts) && OrderlyRun(Apply(w, a), acts)
    requires forall b :: b in acts ==> !Touches(b, i)
    requires r !in Apply(w, a).readers
    ensures i < Apply(w, a).e.size <==> Reached(w, a, i)
    ensures var v := After(Apply(w, a), acts);
      && i < |v.origin| && v.origin[i] == w.mut.data[i - w.mut.off]
      && (Reached(w, a, i) && (forall b :: b in acts ==> !Hides(b, i)) ==> i < v.e.size)
      && (r in v.readers && i in v.readers[r].seen ==> CacheByte(v, i) == w.mut.data[i - w.mut.off])
  {
    var u := Apply(w, a);
    StepKeepsInv(w, a);
    ReturnSettles(w, a, i);
    SettledRun(u, acts, i, w.mut.data[i - w.mut.off], u.readers.Keys);
    ReturnReaches(w, a, i);
    if Reached(w, a, i) && forall b :: b in acts ==> !Hides(b, i) {
      ReachesRun(u, acts, i, w.mut.data[i - w.mut.off], u.readers.Keys);
    }
    RunKeepsInv(u, acts);
    SettledReads(After(u, acts), i, w.mut.data[i - w.mut.off], u.readers.Keys, r);
  }

  lemma SettledReads(v: World, i: nat, b: Byte, before: set<nat>, r: nat)
    requires Readers(v.readers, v.e.cache, OriginOf(v)) && Settled(v, i, b, before) && r !in before
    ensures r in v.readers && i in v.readers[r].seen ==> CacheByte(v, i) == b
  {
  }

  lemma ReturnReaches(w: World, a: Action, i: nat)
    requires Shape(w) && Enabled(w, a) && Returns(w, a) && InFlight(w.mut, i)
    ensures i < Apply(w, a).e.size <==> Reached(w, a, i)
  {
    if a.CopyEnd? || a.OwnNote? {
      PlainStep(w, a);
    } else {
      GivenUp(w, a);
    }
  }

  /** The exits without a copy leave the recorded size as it was. */
  lemma GivenUp(w: World, a: Action)
    requires Enabled(w, a) && Returns(w, a) && !a.CopyEnd? && !a.OwnNote?
    ensures Apply(w, a).e.size == w.e.size
  {
    if a.OwnStatFail? {
      DistrustKeepsSize(w);
    } else {
      GivingUpKeepsSize(w, a.id, a.deferred, a.cut, a.saved);
    }
  }

  lemma DistrustKeepsSize(w: World)
    ensures DoDistrust(w).e.size == w.e.size
  {
  }

  lemma GivingUpKeepsSize(w: World, id: OriginId, deferred: bool, cut: bool, saved: bool)
    requires w.mut.Write? && NoMemory(w.e, w.mut.off + |w.mut.data|, Busy(w), deferred)
    ensures DoOwnStat(w, w.mut.off + |w.mut.data|, id, deferred, cut, saved).e.size == w.e.size
  {
  }

  lemma ReturnSettles(w: World, a: Action, i: nat)
    requires HasLanded(OriginOf(w)) && Enabled(w, a) && Returns(w, a) && InFlight(w.mut, i)
    ensures Settled(Apply(w, a), i, w.mut.data[i - w.mut.off], Apply(w, a).readers.Keys)
  {
    assert AtOrigin(OriginOf(w), i, w.mut.data[i - w.mut.off]);
    ReturnKeepsOrigin(w, a);
  }

  lemma ReturnKeepsOrigin(w: World, a: Action)
    requires Enabled(w, a) && Returns(w, a)
    ensures var v := Apply(w, a); v.origin == w.origin && v.mut.Idle?
  {
  }

  /* ---- a landed fill is marked ---- */

  /** Where the write in flight ends. */
  function End(w: World): nat
    requires w.mut.Write?
  {
    w.mut.off + |w.mut.data|
  }

  /** The recorded size moves and the field does not. */
  predicate Lags(w: World, a: Action) {
    match a
    case OwnStat(size, _, deferred, _, _) =>
      w.mut.Write? &&
      (if size != End(w) then size != w.e.size && Busy(w)
       else if size < w.e.size then Busy(w) else size > w.e.size && deferred)
    case OwnRetry(size, _, _, _) => size != w.e.size && Busy(w)
    case OwnGrow(deferred, _) => w.mut.Write? && w.e.size < End(w) && deferred
    case Stat(size, _, _, _) => size != w.e.size && Busy(w)
    case TruncApply(resized, _, _) => w.mut.Trunc? && w.e.size != w.mut.size && !resized
    case _ => false
  }

  /** The field is resized to the recorded size, or built for it. */
  predicate Rebuilds(w: World, a: Action) {
    match a
    case OwnStat(size, id, deferred, _, _) =>
      w.mut.Write? &&
      (if size != End(w) then !NoNews(w, size, id) && !Busy(w)
       else if size < w.e.size then !Busy(w) && !deferred else size > w.e.size && !deferred)
    case OwnRetry(size, id, _, _) => !NoNews(w, size, id) && !Busy(w)
    case OwnGrow(deferred, _) => w.mut.Write? && w.e.size < End(w) && !deferred
    case Stat(size, id, _, _) => !NoNews(w, size, id) && !Busy(w)
    case TruncApply(resized, _, _) => w.mut.Trunc? && w.e.size != w.mut.size && resized
    case Crash(_) => true
    case _ => false
  }

  /** At the end of the run the field lags behind the size: since it was last rebuilt,
      some step deferred that. */
  ghost predicate LeftBehind(w: World, acts: seq<Action>, behind: bool)
    requires Runs(w, acts)
    decreases |acts|
  {
    if acts == [] then behind
    else LeftBehind(Apply(w, acts[0]), acts[1..], !Rebuilds(w, acts[0]) && (behind || Lags(w, acts[0])))
  }

  predicate Fitted(w: World) { FieldFits(w.e.nbits, w.e.size, w.ps) }

  /** A step that moves the size keeps the field fitted, or makes it so. */
  predicate Follows(w: World, a: Action, f: Entry) {
    (Fitted(w) && !Lags(w, a)) || Rebuilds(w, a) ==> FieldFits(f.nbits, f.size, w.ps)
  }

  lemma ReconcileFits(e: Entry, size: nat, id: OriginId, busy: bool, cut: bool, saved: bool, ps: Grid)
    ensures var f := Reconcile(e, size, id, busy, cut, saved, ps);
      && f.size == size
      && (size == e.size && !ContentChanged(e.id, id) ==> f.nbits == e.nbits)
      && (!(size == e.size && !ContentChanged(e.id, id)) ==>
            if busy then f.nbits == e.nbits else FieldFits(f.nbits, size, ps))
  {
    CountFits(size, ps);
  }

  lemma StatFollows(w: World, a: Action, size: nat, id: OriginId, cut: bool, saved: bool)
    requires a == Stat(size, id, cut, saved) || a == OwnRetry(size, id, cut, saved)
    ensures Follows(w, a, Reconcile(w.e, size, id, Busy(w), cut, saved, w.ps))
  {
    ReconcileFits(w.e, size, id, Busy(w), cut, saved, w.ps);
  }

  lemma GrowFollows(e: Entry, end: nat, deferred: bool, saved: bool, ps: Grid)
    ensures var f := GrowTo(e, end, deferred, saved, ps);
      && f.size == (if end <= e.size then e.size else end)
      && (end <= e.size || deferred ==> f.nbits == e.nbits)
      && (end > e.size && !deferred ==> FieldFits(f.nbits, end, ps))
  {
    CountFits(end, ps);
  }

  lemma FillSizeFits(e: Entry, end: nat, id: OriginId, busy: bool, deferred: bool, cut: bool, saved: bool, ps: Grid)
    ensures var f := FillSize(e, end, id, busy, deferred, cut, saved, ps);
      && (end > e.size && !deferred ==> f.size == end && FieldFits(f.nbits, end, ps))
      && (end == e.size || NoMemory(e, end, busy, deferred) ==> f.size == e.size && f.nbits == e.nbits)
      && (end < e.size && !busy && !deferred ==> f.size == end && FieldFits(f.nbits, end, ps))
  {
    if end > e.size {
      GrowFollows(e, end, deferred, saved, ps);
    }
    CountFits(end, ps);
  }

  lemma OwnStatFollows(w: World, size: nat, id: OriginId, deferred: bool, cut: bool, saved: bool)
    requires CanOwnStat(w, deferred, cut)
    ensures Follows(w, OwnStat(size, id, deferred, cut, saved), DoOwnStat(w, size, id, deferred, cut, saved).e)
  {
    if size != End(w) {
      var f := Reconcile(w.e, size, id, Busy(w), cut, saved, w.ps);
      ReconcileFits(w.e, size, id, Busy(w), cut, saved, w.ps);
      OtherStatIs(w, f, size, id, deferred, cut, saved);
      NotedFields(w, w.(e := f, mut := w.mut.(phase := Observed(Some(id)))));
    } else {
      EndStatFollows(w, id, deferred, cut, saved);
    }
  }

  lemma EndStatEntry(w: World, id: OriginId, deferred: bool, cut: bool, saved: bool)
    requires w.mut.Write?
    ensures DoOwnStat(w, End(w), id, deferred, cut, saved).e ==
            FillSize(w.e, End(w), id, Busy(w), deferred, cut, saved, w.ps)
  {
    NotedFields(w, w.(e := FillSize(w.e, End(w), id, Busy(w), deferred, cut, saved, w.ps)));
  }

  lemma EndStatFollows(w: World, id: OriginId, deferred: bool, cut: bool, saved: bool)
    requires CanOwnStat(w, deferred, cut)
    ensures Follows(w, OwnStat(End(w), id, deferred, cut, saved), DoOwnStat(w, End(w), id, deferred, cut, saved).e)
  {
    EndStatEntry(w, id, deferred, cut, saved);
    FillSizeFits(w.e, End(w), id, Busy(w), deferred, cut, saved, w.ps);
  }

  lemma OwnGrowFollows(w: World, deferred: bool, saved: bool)
    requires CanOwnGrow(w, deferred)
    ensures Follows(w, OwnGrow(deferred, saved), DoOwnGrow(w, deferred, saved).e)
  {
    GrowFollows(w.e, End(w), deferred, saved, w.ps);
  }

  lemma TruncApplyFollows(w: World, resized: bool, cut: bool, saved: bool)
    requires CanTruncApply(w, cut)
    ensures Follows(w, TruncApply(resized, cut, saved), DoTruncApply(w, resized, cut, saved).e)
  {
    CountFits(w.mut.size, w.ps);
  }

  lemma LookFollows(w: World, a: Action)
    requires Enabled(w, a) && IsOwnLook(a)
    ensures Follows(w, a, Apply(w, a).e)
  {
    match a
    case OwnStat(size, id, deferred, cut, saved) => OwnStatFollows(w, size, id, deferred, cut, saved);
    case OwnRetry(size, id, cut, saved) => StatFollows(w, a, size, id, cut, saved);
    case OwnGrow(deferred, saved) => OwnGrowFollows(w, deferred, saved);
    case OwnStatFail => DistrustFollows(w);
    case _ =>
  }

  lemma DistrustFollows(w: World)
    ensures Follows(w, OwnStatFail, DoDistrust(w).e)
  {
  }

  lemma ReloadFollows(w: World, l: Look)
    ensures Follows(w, Crash(l), Reloaded(w, l).e) && Reloaded(w, l).ps == w.ps
  {
    ReloadRestarts(w, l);
    CountFits(l.size, w.ps);
  }

  lemma OpenFollows(w: World, size: nat, id: OriginId, cut: bool, saved: bool)
    ensures var v := DoStat(w, size, id, cut, saved); v.ps == w.ps && Follows(w, Stat(size, id, cut, saved), v.e)
  {
    StatFollows(w, Stat(size, id, cut, saved), size, id, cut, saved);
  }

  lemma ShortenFollows(w: World, resized: bool, cut: bool, saved: bool)
    requires CanTruncApply(w, cut)
    ensures var v := DoTruncApply(w, resized, cut, saved);
      v.ps == w.ps && Follows(w, TruncApply(resized, cut, saved), v.e)
  {
    TruncApplyFollows(w, resized, cut, saved);
  }

  /** Steps that move neither size nor field. */
  lemma StillFollows(w: World, a: Action, v: World)
    requires !Sizing(a) && v.e.size == w.e.size && v.e.nbits == w.e.nbits
    ensures Follows(w, a, v.e)
  {
  }

  lemma PlainFollows(w: World, a: Action)
    requires Enabled(w, a) && Plain(a) && !Sizing(a)
    ensures Apply(w, a).ps == w.ps && Follows(w, a, Apply(w, a).e)
  {
    PlainStep(w, a);
    StillFollows(w, a, Apply(w, a));
  }

  lemma OddFollows(w: World, a: Action)
    requires Enabled(w, a) && !Plain(a) && !Sizing(a)
    ensures Apply(w, a).ps == w.ps && Follows(w, a, Apply(w, a).e)
  {
    OddKeepsSize(w, a);
    StillFollows(w, a, Apply(w, a));
  }

  lemma FieldFollows(w: World, a: Action)
    requires Enabled(w, a)
    ensures Apply(w, a).ps == w.ps && Follows(w, a, Apply(w, a).e)
  {
    if IsOwnLook(a) {
      LookFollows(w, a);
      PlainStep(w, a);
    } else if a.Stat? {
      OpenFollows(w, a.size, a.id, a.cut, a.saved);
    } else if a.TruncApply? {
      ShortenFollows(w, a.resized, a.cut, a.saved);
    } else if a.Crash? {
      ReloadFollows(w, a.look);
    } else if Plain(a) {
      PlainFollows(w, a);
    } else {
      OddFollows(w, a);
    }
  }

  lemma {:induction false} RunFollows(w: World, acts: seq<Action>, behind: bool)
    requires Runs(w, acts) && (behind || Fitted(w)) && !LeftBehind(w, acts, behind)
    ensures Fitted(After(w, acts))
    decreases |acts|
  {
    if acts == [] {
    } else {
      FieldFollows(w, acts[0]);
      RunFollows(Apply(w, acts[0]), acts[1..], !Rebuilds(w, acts[0]) && (behind || Lags(w, acts[0])));
    }
  }

  /** A fill that landed whole under a claim that still stands leaves its piece marked,
      in every reachable world in which nothing deferred the field since it was last
      resized, rebuilt or reloaded. */
  lemma FillsAreMarked(w: World, acts: seq<Action>, saved: bool)
    requires Init(w) && Runs(w, acts) && OrderlyRun(w, acts) && !LeftBehind(w, acts, false)
    requires CanFillEnd(After(w, acts)) && After(w, acts).lock.written
    requires var v := After(w, acts); var p := v.lock.piece;
      p in v.e.filling && v.e.filling[p] == v.e.writes && Len(v.e.size, p, v.ps) == v.fills[p].len
    ensures After(w, acts).lock.piece in DoFillEnd(After(w, acts), saved).e.bits
  {
    InitInv(w);
    CountFits(|w.origin|, w.ps);
    RunFollows(w, acts, false);
    RunKeepsInv(w, acts);
    StandingIsMarked(After(w, acts), saved);
  }

  lemma StandingIsMarked(v: World, saved: bool)
    requires Inv(v) && Fitted(v) && CanFillEnd(v) && v.lock.written
    requires var p := v.lock.piece;
      p in v.e.filling && v.e.filling[p] == v.e.writes && Len(v.e.size, p, v.ps) == v.fills[p].len
    ensures v.lock.piece in DoFillEnd(v, saved).e.bits
  {
    var p := v.lock.piece;
    assert FillOk(v.ps, p, v.fills[p], v.e.filling[p], v.e.writes, v.e.size, v.e.bits, OriginOf(v));
    FitsIsCount(v.e.nbits, v.e.size, v.ps);
    DivCeilBound(v.e.size, p, v.ps);
    FillEndCases(v, saved);
  }

  /* ---- transfer pinning ---- */

  /** Transfer r goes on through this step. */
  predicate Carries(w: World, a: Action, r: nat) { r in w.readers && a != EndXfer(r) && !a.Crash? }

  /** A fill lands other bytes over byte i of the cache file. */
  predicate Refills(w: World, a: Action, i: nat) {
    && a.FillPwrite? && w.lock.Landing? && i in w.lock.buf && i in a.keep
    && i in w.e.cache && w.lock.buf[i] != w.e.cache[i]
  }

  lemma TruncUnderTransfer(w: World, resized: bool, cut: bool, saved: bool)
    requires CanTruncApply(w, cut) && Busy(w)
    ensures var v := DoTruncApply(w, resized, cut, saved);
      && v.readers == w.readers && v.e.cache == w.e.cache
      && (v.e.storage != w.e.storage <==>
            (resized && w.e.size != w.mut.size && BytesLen(Count(w.mut.size, w.ps)) != BytesLen(w.e.nbits)))
  {
  }

  lemma MoveUnderTransfer(w: World, a: Action)
    requires Enabled(w, a) && MovesOrigin(a)
    ensures Apply(w, a).readers.Keys == w.readers.Keys && Apply(w, a).e == w.e && Apply(w, a).ps == w.ps
  {
  }

  lemma ReaderUnderTransfer(w: World, a: Action, r: nat)
    requires Enabled(w, a) && Carries(w, a, r) && MovesReaders(a)
    ensures r in Apply(w, a).readers && Apply(w, a).e == w.e
  {
  }

  lemma IssueUnderTransfer(w: World, a: Action, r: nat)
    requires Enabled(w, a) && Carries(w, a, r) && (a.WriteIssue? || a.TruncIssue? || a.FillPwrite?)
    ensures r in Apply(w, a).readers && Apply(w, a).e.storage == w.e.storage
    ensures Apply(w, a).e.cache == if a.FillPwrite? then w.e.cache + Restrict(w.lock.buf, a.keep) else w.e.cache
  {
  }

  /** The other steps that are not plain, under a transfer. */
  lemma OddUnderTransfer(w: World, a: Action, r: nat)
    requires Enabled(w, a) && Carries(w, a, r) && !Plain(a) && !a.TruncApply?
    ensures r in Apply(w, a).readers && Apply(w, a).e.storage == w.e.storage
    ensures Apply(w, a).e.cache == if a.FillPwrite? then w.e.cache + Restrict(w.lock.buf, a.keep) else w.e.cache
  {
    if MovesOrigin(a) {
      MoveUnderTransfer(w, a);
    } else if MovesReaders(a) {
      ReaderUnderTransfer(w, a, r);
    } else {
      IssueUnderTransfer(w, a, r);
    }
  }

  /** While a transfer is in flight no cull, write-through, truncate or reconcile
      changes a byte of the cache file or cuts a hole in it: a byte changes exactly
      when a fill lands on a piece whose mark was dropped meanwhile. */
  lemma TransferPinsBytes(w: World, a: Action, r: nat, i: nat)
    requires Enabled(w, a) && Carries(w, a, r) && i in w.e.cache
    ensures i in Apply(w, a).e.cache && (Apply(w, a).e.cache[i] != w.e.cache[i] <==> Refills(w, a, i))
    ensures r in Apply(w, a).readers
  {
    assert |w.readers| > 0;
    if Plain(a) {
      PlainStep(w, a);
    } else if a.TruncApply? {
      TruncUnderTransfer(w, a.resized, a.cut, a.saved);
    } else {
      OddUnderTransfer(w, a, r);
    }
  }

  /** Transfer r is in flight throughout and no fill lands on byte i under it. */
  ghost predicate Held(w: World, acts: seq<Action>, r: nat, i: nat)
    requires Runs(w, acts)
    decreases |acts|
  {
    acts == [] || (Carries(w, acts[0], r) && !Refills(w, acts[0], i) && Held(Apply(w, acts[0]), acts[1..], r, i))
  }

  lemma {:induction false} HeldBytes(w: World, acts: seq<Action>, r: nat, i: nat)
    requires Runs(w, acts) && Held(w, acts, r, i) && i in w.e.cache
    ensures i in After(w, acts).e.cache && After(w, acts).e.cache[i] == w.e.cache[i]
    decreases |acts|
  {
    if acts == [] {
    } else {
      TransferPinsBytes(w, acts[0], r, i);
      HeldBytes(Apply(w, acts[0]), acts[1..], r, i);
    }
  }

  /** From the bit sample to the pread: what the transfer reads is the file's
      content at the instant of the sample, never a hole, whatever was written,
      truncated, culled or reconciled in between. */
  lemma TransferReadsTheSample(w: World, acts: seq<Action>, r: nat, i: nat)
    requires Inv(w) && Runs(w, acts) && Held(w, acts, r, i)
    requires Marked(w, i) && !InFlight(w.mut, i)
    ensures i in After(w, acts).e.cache && i < |w.origin| && After(w, acts).e.cache[i] == w.origin[i]
  {
    HeldBytes(w, acts, r, i);
  }

  /** Transfer r is in flight throughout and the piece of byte i stays marked. */
  ghost predicate KeepsMark(w: World, acts: seq<Action>, r: nat, i: nat)
    requires Runs(w, acts)
    decreases |acts|
  {
    acts == [] || (Carries(w, acts[0], r) && Marked(w, i) && KeepsMark(Apply(w, acts[0]), acts[1..], r, i))
  }

  /** A fill never lands on a marked piece. */
  lemma MarkedIsNotRefilled(w: World, a: Action, i: nat)
    requires Locked(w) && Marked(w, i)
    requires Fills(w.ps, w.fills, w.e.filling, w.e.writes, w.e.size, w.e.bits, OriginOf(w))
    ensures !Refills(w, a, i)
  {
    if w.lock.Landing? && i in w.lock.buf {
      LandsUnmarked(w, i);
    }
  }

  lemma LandsUnmarked(w: World, i: nat)
    requires Locked(w) && w.lock.Landing? && i in w.lock.buf
    requires Fills(w.ps, w.fills, w.e.filling, w.e.writes, w.e.size, w.e.bits, OriginOf(w))
    ensures PieceOf(i, w.ps) !in w.e.bits
  {
    var p := w.lock.piece;
    assert FillOk(w.ps, p, w.fills[p], w.e.filling[p], w.e.writes, w.e.size, w.e.bits, OriginOf(w));
    assert PieceOf(i, w.ps) == p;
  }

  lemma {:induction false} MarkHolds(w: World, acts: seq<Action>, r: nat, i: nat)
    requires Inv(w) && Runs(w, acts) && OrderlyRun(w, acts) && KeepsMark(w, acts, r, i)
    ensures Held(w, acts, r, i)
    decreases |acts|
  {
    if acts == [] {
    } else {
      MarkedIsNotRefilled(w, acts[0], i);
      StepKeepsInv(w, acts[0]);
      MarkHolds(Apply(w, acts[0]), acts[1..], r, i);
    }
  }

  /** ... in particular when nothing drops the sampled mark before the pread. */
  lemma SampledMarkPins(w: World, acts: seq<Action>, r: nat, i: nat)
    requires Inv(w) && Runs(w, acts) && OrderlyRun(w, acts) && KeepsMark(w, acts, r, i)
    requires Marked(w, i) && !InFlight(w.mut, i)
    ensures i in After(w, acts).e.cache && i < |w.origin| && After(w, acts).e.cache[i] == w.origin[i]
  {
    MarkHolds(w, acts, r, i);
    TransferReadsTheSample(w, acts, r, i);
  }

  /** The bitfield's storage is replaced under a transfer by exactly one step: a
      truncate whose in-place arm resizes the field to another length in bytes. */
  predicate ReallocatesField(w: World, a: Action) {
    && a.TruncApply? && w.mut.Trunc? && a.resized && w.e.size != w.mut.size
    && BytesLen(Count(w.mut.size, w.ps)) != BytesLen(w.e.nbits)
  }

  lemma TransferPinsField(w: World, a: Action, r: nat)
    requires Enabled(w, a) && Carries(w, a, r)
    ensures Apply(w, a).e.storage != w.e.storage <==> ReallocatesField(w, a)
  {
    assert |w.readers| > 0;
    if Plain(a) {
      PlainStep(w, a);
    } else if a.TruncApply? {
      TruncUnderTransfer(w, a.resized, a.cut, a.saved);
    } else {
      OddUnderTransfer(w, a, r);
    }
  }

  /* ---- crash consistency ---- */

  /** What the next process would wrongly trust is what the last save exposed. */
  lemma TaintIsExposed(w: World, i: nat)
    requires Bytes(w) && Ids(OriginOf(w), w.e.sidecar) && TaintedAt(w, i)
    ensures i in w.exposed
  {
  }

  /** The look takes marks of an older identity for current: it lags behind a change
      that the sidecar does not know of either. */
  predicate TrustsOld(w: World, l: Look) {
    LoadBits(w.e.sidecar, l.size, l.id, w.ps) != {} && w.e.sidecar.value.id != w.oid
  }

  /** What reload l holds for byte i is there and is the origin's. */
  predicate HonestAt(u: World, i: nat) { i in u.e.cache && i < |u.origin| && u.e.cache[i] == u.origin[i] }

  /** The process dies between any two steps and reloads through the identity check,
      against any stat that fits, current or lagging. Every reloaded mark names bytes
      that are there and are the origin's, unless a byte that the last save exposed
      still differs: exactly then, if the marks are not trusted under an identity
      that another change has outdated. A current stat never trusts those. */
  lemma CrashReloadsHonestMarks(w: World, acts: seq<Action>, l: Look)
    requires Init(w) && Runs(w, acts) && OrderlyRun(w, acts)
    requires var v := After(w, acts); LookFits(v, l) && !TrustsOld(v, l)
    ensures var v := After(w, acts); var u := Reloaded(v, l);
      (forall i: nat {:trigger Marked(u, i)} :: Marked(u, i) ==> HonestAt(u, i)) <==>
      !exists i {:trigger TaintedAt(v, i)} :: i in v.exposed && TaintedAt(v, i) && Marked(u, i)
    ensures var v := After(w, acts); var u := Reloaded(v, l);
      forall i: nat {:trigger Marked(u, i)} :: Marked(u, i) && i !in v.exposed ==> HonestAt(u, i)
  {
    InitInv(w);
    RunKeepsInv(w, acts);
    ReloadedMarks(After(w, acts), l);
  }

  lemma ReloadedMarks(v: World, l: Look)
    requires Inv(v) && LookFits(v, l) && !TrustsOld(v, l)
    ensures var u := Reloaded(v, l);
      forall i: nat {:trigger Marked(u, i)} :: Marked(u, i) ==>
        (HonestAt(u, i) <==> !TaintedAt(v, i)) && (!HonestAt(u, i) ==> i in v.exposed)
  {
    var u := Reloaded(v, l);
    ReloadRestarts(v, l);
    forall i: nat | Marked(u, i)
      ensures (HonestAt(u, i) <==> !TaintedAt(v, i)) && (!HonestAt(u, i) ==> i in v.exposed)
    {
      TrustedIsCurrent(v, l);
      if TaintedAt(v, i) {
        TaintIsExposed(v, i);
      }
    }
  }

  /** Marks that a look trusts and that are not of an older identity are those that a
      current look trusts. */
  lemma TrustedIsCurrent(v: World, l: Look)
    requires LookFits(v, l) && !TrustsOld(v, l) && LoadBits(v.e.sidecar, l.size, l.id, v.ps) != {}
    ensures l.size == |v.origin|
    ensures LoadBits(v.e.sidecar, l.size, l.id, v.ps) == LoadBits(v.e.sidecar, |v.origin|, v.oid, v.ps)
  {
  }

  /** ... and a current look always fits, never trusts outdated marks, and is wrong
      exactly at the bytes that are tainted. */
  lemma CurrentReload(w: World, acts: seq<Action>, l: Look, i: nat)
    requires Init(w) && Runs(w, acts) && OrderlyRun(w, acts)
    requires var v := After(w, acts); l.size == |v.origin| && l.id == v.oid
    ensures var v := After(w, acts); var u := Reloaded(v, l);
      LookFits(v, l) && !TrustsOld(v, l) && (Marked(u, i) && !HonestAt(u, i) <==> TaintedAt(v, i))
  {
    InitInv(w);
    RunKeepsInv(w, acts);
    var v := After(w, acts);
    NowFits(v, l);
    ReloadRestarts(v, l);
    OldIsNotTrusted(v, l);
  }

  lemma OldIsNotTrusted(v: World, l: Look)
    requires Ids(OriginOf(v), v.e.sidecar) && l.id == v.oid
    ensures !TrustsOld(v, l)
  {
  }

  /** Step a saves marks of bytes that its write has still to deliver, under the
      identity those bytes came with. */
  ghost predicate Exposes(w: World, a: Action)
    requires Enabled(w, a)
  {
    var v := Apply(w, a);
    v.e.sidecar != w.e.sidecar && Stains(v.e.sidecar, v.ps, OriginOf(v)) != {}
  }

  /** The process dies; what the next one sees may lag, but fits, and does not make
      outdated marks look current. */
  predicate DiesAt(w: World, a: Action) { a.Crash? && LookFits(w, a.look) && !TrustsOld(w, a.look) }

  /** A run that may die anywhere and never saves in the window. */
  ghost predicate SavesOutside(w: World, acts: seq<Action>)
    requires Runs(w, acts)
    decreases |acts|
  {
    acts == [] ||
    ((Orderly(w, acts[0]) || DiesAt(w, acts[0])) && !Exposes(w, acts[0]) && SavesOutside(Apply(w, acts[0]), acts[1..]))
  }

  /** Only a save exposes, and it exposes what it names in the window. */
  ghost predicate Records(w: World, v: World) {
    if v.e.sidecar != w.e.sidecar then v.exposed == Stains(v.e.sidecar, v.ps, OriginOf(v))
    else v.exposed == w.exposed || v.exposed == {}
  }

  lemma WriteRecords(w: World, a: Action)
    requires Enabled(w, a) && IsWriteStep(a)
    ensures Records(w, Apply(w, a))
  {
  }

  lemma CopyRecords(w: World, a: Action)
    requires Enabled(w, a) && IsCopyStep(a)
    ensures Records(w, Apply(w, a))
  {
  }

  lemma FillRecords(w: World, a: Action)
    requires Enabled(w, a) && IsFillStep(a)
    ensures Records(w, Apply(w, a))
  {
  }

  lemma PunchSaveRecords(w: World, p: nat, durable: bool, saved: bool)
    ensures Records(w, DoPunchSave(w, p, durable, saved))
  {
  }

  lemma PunchCutRecords(w: World, ok: bool, saved: bool)
    requires w.lock.Punch?
    ensures Records(w, DoPunchCut(w, ok, saved))
  {
  }

  lemma PunchRecords(w: World, a: Action)
    requires Enabled(w, a) && IsPunch(a)
    ensures Records(w, Apply(w, a))
  {
    match a
    case PunchSave(p, durable, saved) => PunchSaveRecords(w, p, durable, saved);
    case PunchCut(ok, saved) => PunchCutRecords(w, ok, saved);
    case _ =>
  }

  lemma LoadRecords(w: World, a: Action)
    requires Enabled(w, a) && (a.LoadStart? || a.LoadFail? || a.LoadMerge?)
    ensures Records(w, Apply(w, a))
  {
    match a
    case LoadMerge(t, m) => MergeRecords(w, t, m);
    case _ =>
  }

  lemma MergeRecords(w: World, t: nat, m: Manifest)
    requires t in w.loads
    ensures Records(w, DoLoadMerge(w, t, m))
  {
  }

  lemma OriginRecords(w: World, a: Action)
    requires Enabled(w, a) && IsOriginStep(a)
    ensures Records(w, Apply(w, a))
  {
  }

  lemma StepRecords(w: World, a: Action)
    requires Enabled(w, a) && !a.Crash?
    ensures Records(w, Apply(w, a))
  {
    if IsWriteStep(a) {
      WriteRecords(w, a);
    } else if IsCopyStep(a) {
      CopyRecords(w, a);
    } else if IsFillStep(a) {
      FillRecords(w, a);
    } else if a.LoadStart? || a.LoadFail? || a.LoadMerge? {
      LoadRecords(w, a);
    } else if IsCullStep(a) {
      PunchRecords(w, a);
    } else if IsOriginStep(a) {
      OriginRecords(w, a);
    }
  }

  lemma NothingMistaken(w: World, l: Look)
    requires Inv(w) && w.exposed == {} && LookFits(w, l) && !TrustsOld(w, l)
    ensures !Mistaken(w, l)
  {
    if Mistaken(w, l) {
      var i :| MistakenAt(w, l, i);
      TrustedIsCurrent(w, l);
      TaintIsExposed(w, i);
    }
  }

  lemma {:induction false} SavesOutsideRun(w: World, acts: seq<Action>)
    requires Inv(w) && w.exposed == {} && Runs(w, acts) && SavesOutside(w, acts)
    ensures OrderlyRun(w, acts) && Inv(After(w, acts)) && After(w, acts).exposed == {}
    decreases |acts|
  {
    if acts == [] {
    } else {
      var a := acts[0];
      if DiesAt(w, a) {
        NothingMistaken(w, a.look);
      }
      StepKeepsInv(w, a);
      if !a.Crash? {
        StepRecords(w, a);
      }
      SavesOutsideRun(Apply(w, a), acts[1..]);
    }
  }

  /** Crashes anywhere, any number of them: as long as no save falls between the
      size step of a write and the end of its copy, no reload is wrong. */
  lemma CrashAnywhere(w: World, acts: seq<Action>, l: Look, i: nat)
    requires Init(w) && Runs(w, acts) && SavesOutside(w, acts)
    requires LookFits(After(w, acts), l) && !TrustsOld(After(w, acts), l)
    requires Marked(Reloaded(After(w, acts), l), i)
    ensures HonestAt(Reloaded(After(w, acts), l), i)
  {
    InitInv(w);
    SavesOutsideRun(w, acts);
    ReloadedMarks(After(w, acts), l);
  }

  /** The sidecar just saved would be trusted, and names byte i of the write in its
      window whose data the cache file does not have. */
  predicate NamesOldByte(v: World, i: nat) {
    && InWindow(v) && InRange(v.mut.off, |v.mut.data|, i)
    && v.e.sidecar.Some? && Trusted(v.e.sidecar.value, |v.origin|, v.oid, v.ps)
    && PieceOf(i, v.ps) in v.e.sidecar.value.bits && PieceOf(i, v.ps) < MAX_PIECES
    && !(i in v.e.cache && v.e.cache[i] == v.mut.data[i - v.mut.off])
  }

  /** A stained byte is the window's, and its origin byte is the write's. */
  lemma StainIsWindows(v: World, i: nat)
    requires Shape(v) && i in Stains(v.e.sidecar, v.ps, OriginOf(v))
    ensures InWindow(v) && InRange(v.mut.off, |v.mut.data|, i) && AtByte(v.origin, i, v.mut.data[i - v.mut.off])
  {
    assert Ids(OriginOf(v), v.e.sidecar);
    CurrentFlux(v, i);
    LandedByte(v, i);
  }

  lemma TaintNamesOldByte(v: World, i: nat)
    requires Inv(v) && v.exposed == Stains(v.e.sidecar, v.ps, OriginOf(v))
    ensures TaintedAt(v, i) <==> NamesOldByte(v, i)
  {
    if TaintedAt(v, i) {
      TaintIsExposed(v, i);
      StainIsWindows(v, i);
    }
    if NamesOldByte(v, i) {
      LandedByte(v, i);
      StartedPiece(i, |v.origin|, v.ps);
    }
  }

  /** The guard on the save: it makes the next reload wrong exactly when it names a
      byte of the write in its window whose data is not in the cache file yet. */
  lemma SaveTaints(w: World, a: Action)
    requires Inv(w) && Enabled(w, a) && Orderly(w, a) && Apply(w, a).e.sidecar != w.e.sidecar && !a.Crash?
    ensures var v := Apply(w, a); Tainted(v) <==> exists i :: NamesOldByte(v, i)
  {
    var v := Apply(w, a);
    StepKeepsInv(w, a);
    StepRecords(w, a);
    forall i: nat ensures TaintedAt(v, i) <==> NamesOldByte(v, i) {
      TaintNamesOldByte(v, i);
    }
  }
}
