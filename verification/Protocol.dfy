/** The cache protocol of one file on one node: every locked section of the
    daemon as one action, interleaved with the origin, the readers and crashes.
    This node has one write or truncate in flight; another node may rewrite or
    replace the object while it has none, and is seen by an open before the next. */
module Protocol {
  import opened Pieces
  import opened Entries

  /** A write between its issue and the end of its cache copy. `Sized`
      is the window between the size step and the copy; `stale` says that the
      step adopted an identity the marks do not describe yet. */
  datatype Phase =
    | Issued | Torn | Landed
    | Observed(note: Option<OriginId>)
    | Sized(stale: bool, note: Option<OriginId>)
    | Noting(sample: OriginId)

  datatype Mutation =
    | Idle
    | Rewritten                   // by another node, since this node last looked
    | Write(off: nat, data: seq<Byte>, phase: Phase)
    | Trunc(size: nat, landed: bool)

  /** Who holds `content_mu`. `Punch` holds `file.mu` as well. `good` are the
      bytes of a landing fill that no origin change has touched since. */
  datatype Lock =
    | Free
    | Copying(copied: bool)
    | Landing(piece: nat, buf: Extent, written: bool, good: set<nat>)
    | Punch(idx: nat)

  /** A fill between its claim and its end: the claimed length, the digest a
      peer must meet, and the bytes in hand once they were read. */
  datatype Fill = Fill(len: nat, want: Option<Digest>, buf: Option<Extent>)

  /** A transfer holding `xfer`. `seen` are the bytes it found marked, `clean`
      those no origin change has touched since. */
  datatype Reader = Reader(seen: set<nat>, clean: set<nat>)

  datatype World = World(
    ps: Grid,
    e: Entry,
    origin: seq<Byte>,
    oid: OriginId,
    mut: Mutation,
    lock: Lock,
    fills: map<nat, Fill>,
    readers: map<nat, Reader>,
    raw: nat,                     // cache reads counted without content_mu
    loads: map<nat, nat>,         // manifest loaders: thread -> sampled generation
    published: set<Manifest>,     // every manifest anyone ever put on the origin
    exposed: set<nat>)            // bytes in flux that the last save named under the new identity

  datatype Action =
    | WriteIssue(off: nat, data: seq<Byte>)
    | WriteTear(after: seq<Byte>, id: OriginId)
    | WriteLand(id: OriginId)
    | WriteFail
    | OwnStat(size: nat, id: OriginId, deferred: bool, cut: bool, saved: bool)
    | OwnRetry(size: nat, id: OriginId, cut: bool, saved: bool)
    | OwnGrow(deferred: bool, saved: bool)
    | OwnStatFail
    | CopyPwrite(keep: set<nat>)
    | CopyEnd(saved: bool)
    | OwnNote(saved: bool)
    | TruncIssue(n: nat)
    | TruncLand(id: OriginId)
    | TruncFail
    | TruncApply(resized: bool, cut: bool, saved: bool)
    | Stat(size: nat, id: OriginId, cut: bool, saved: bool)
    | BeginFill(p: nat)
    | OriginRead(p: nat, buf: Extent)
    | WantHash(p: nat)
    | PeerAdmit(p: nat, buf: Extent)
    | AbortFill(p: nat, saved: bool)
    | FillCheck(p: nat)
    | FillPwrite(keep: set<nat>)
    | FillEnd(saved: bool)
    | PunchSave(p: nat, durable: bool, saved: bool)
    | PunchCut(ok: bool, saved: bool)
    | Heal(p: nat, saved: bool)
    | LoadStart(t: nat)
    | LoadFail(t: nat, remember: bool)
    | LoadMerge(t: nat, m: Manifest)
    | BeginXfer(r: nat)
    | Observe(r: nat, p: nat)
    | EndXfer(r: nat)
    | RawBegin
    | RawEnd
    | Crash(look: Look)
    | TearSidecar(bare: bool)
    | Publish(n: nat)
    | ForeignPublish(m: Manifest)
    | ForeignRewrite(after: seq<Byte>, id: OriginId)

  predicate Busy(w: World) { |w.readers| + w.raw > 0 }

  predicate FileMuFree(w: World) { !w.lock.Punch? }

  /** Bytes the mutation in flight may change at the origin. */
  predicate InFlight(m: Mutation, i: nat) {
    match m
    case Idle => false
    case Rewritten => true
    case Write(off, data, _) => InRange(off, |data|, i)
    case Trunc(n, _) => n <= i
  }

  /** The part of a world that decides which bytes are in flux. */
  datatype Origin = Origin(bytes: seq<Byte>, oid: OriginId, mut: Mutation, seen: OriginId)

  function OriginOf(w: World): Origin { Origin(w.origin, w.oid, w.mut, w.e.id) }

  /** Bytes whose origin may already be newer than what the cache was filled
      or marked from: the range of a mutation that reached the origin, until
      the entry has caught up with it. */
  predicate InFlux(o: Origin, i: nat) {
    match o.mut
    case Idle => false
    case Rewritten => o.seen != o.oid
    case Write(off, data, phase) =>
      InRange(off, |data|, i) &&
      (if phase.Sized? then phase.stale || o.seen != o.oid
       else !phase.Issued? && !phase.Noting? && o.seen != o.oid)
    case Trunc(n, landed) => n <= i && landed && o.seen != o.oid
  }

  predicate Dirty(w: World, i: nat) { InFlux(OriginOf(w), i) }

  /** The origin gets new bytes and an identity that no one has seen yet. */
  function OriginMoves(w: World, after: seq<Byte>, id: OriginId, m: Mutation): World {
    w.(origin := after, oid := id, mut := m, exposed := {},
       lock := if w.lock.Landing? then w.lock.(good := set i | i in w.lock.good && !InFlight(m, i)) else w.lock,
       readers := map r | r in w.readers ::
         w.readers[r].(clean := set i | i in w.readers[r].clean && !InFlight(m, i)))
  }

  predicate Newer(was: OriginId, now: OriginId) {
    was.known && now.known && was.ino == now.ino && ContentChanged(was, now)
  }

  /** What a torn, still running write may leave at the origin. */
  predicate TearOf(before: seq<Byte>, off: nat, n: nat, after: seq<Byte>) {
    && |before| <= |after| && (|after| == |before| || |after| <= off + n)
    && (forall i :: 0 <= i < |after| && !(off <= i < off + n) ==>
          after[i] == if i < |before| then before[i] else 0)
  }

  function Overwrite(before: seq<Byte>, off: nat, data: seq<Byte>): (after: seq<Byte>)
    ensures TearOf(before, off, |data|, after)
    ensures data != [] ==> off + |data| <= |after|
    ensures forall i :: off <= i < off + |data| ==> after[i] == data[i - off]
  {
    var len := if data == [] || off + |data| < |before| then |before| else off + |data|;
    seq(len, i requires 0 <= i < len =>
      if off <= i < off + |data| then data[i - off] else if i < |before| then before[i] else 0)
  }

  function Resized(before: seq<Byte>, n: nat): (after: seq<Byte>)
    ensures |after| == n
    ensures forall i :: 0 <= i < n ==> after[i] == if i < |before| then before[i] else 0
  {
    seq(n, i requires 0 <= i < n => if i < |before| then before[i] else 0)
  }

  /** The bytes the persisted marks name under the current identity although the
      copy in flight has still to deliver them. */
  ghost function Stains(sidecar: Option<Sidecar>, ps: Grid, o: Origin): set<nat> {
    if sidecar.Some? && sidecar.value.id == o.oid
    then set i: nat | i < sidecar.value.size && PieceOf(i, ps) in sidecar.value.bits && InFlux(o, i)
    else {}
  }

  ghost function Noted(was: World, now: World): World {
    if now.e.sidecar != was.e.sidecar then now.(exposed := Stains(now.e.sidecar, now.ps, OriginOf(now))) else now
  }

  /** The next process would hold byte i for the origin's, and it is not. */
  predicate TaintedAt(w: World, i: nat) {
    && i < |w.origin| && PieceOf(i, w.ps) in LoadBits(w.e.sidecar, |w.origin|, w.oid, w.ps)
    && !(i in w.e.cache && w.e.cache[i] == w.origin[i])
  }

  ghost predicate Tainted(w: World) { exists i :: TaintedAt(w, i) }

  /** Another node rewrote the object, and an entry at `id` has not seen that. */
  predicate Unseen(w: World, id: OriginId) { w.mut.Rewritten? && id != w.oid }

  /** The process dies and the next one builds the entry from disk, against a stat
      that may lag. Nothing of this node's is in flight then. */
  ghost function Reloaded(w: World, l: Look): World {
    var e := Opened(w.e.sidecar, w.e.cache, l, w.e.storage + 1, w.ps);
    World(w.ps, e, w.origin, w.oid, if Unseen(w, e.id) then Rewritten else Idle, Free, map[], map[], 0, map[],
          w.published, {})
  }

  /** The stat the origin gives now. */
  function Now(w: World, wiped: bool, cut: bool, saved: bool): Look { Look(|w.origin|, w.oid, wiped, cut, saved) }

  /** After look l the next process would hold byte i for the origin's, and it is not. */
  predicate MistakenAt(w: World, l: Look, i: nat) {
    && i < l.size && PieceOf(i, w.ps) in LoadBits(w.e.sidecar, l.size, l.id, w.ps)
    && !(i in w.e.cache &&
         (Unseen(w, OpenedId(w.e.sidecar, l, w.ps)) || (i < |w.origin| && w.e.cache[i] == w.origin[i])))
  }

  ghost predicate Mistaken(w: World, l: Look) { exists i :: MistakenAt(w, l, i) }

  /** The look shows this object as it is or was, at its size or, if it lags, at one
      that is no larger; and a lagging one that throws away a sidecar of the current
      identity has to wipe it. */
  predicate LookFits(w: World, l: Look) {
    var id := OpenedId(w.e.sidecar, l, w.ps);
    && KnownId(id, w.oid)
    && (if id == w.oid then l.size == |w.origin| else l.size <= |w.origin| || w.mut.Rewritten?)
    && (id != w.oid && w.e.sidecar.Some? && w.e.sidecar.value.id == w.oid ==>
          if Measures(w.e.sidecar.value, l.size, w.ps) then l.saved else l.wiped)
  }

  predicate Completing(w: World, p: nat) { w.lock.Landing? && w.lock.piece == p }

  /** A manifest whose digests are of whole pieces of its own size and grid. */
  ghost predicate Gridded(m: Manifest) {
    forall p :: p in m.entries ==>
      p < MAX_PIECES && Offset(p, m.ps) < m.size && m.entries[p].of.Keys == PieceBytes(p, m.size, m.ps)
  }

  /** An honest manifest of the object: published digests are of its bytes. */
  ghost predicate Describes(m: Manifest, origin: seq<Byte>) {
    && m.size == |origin| && Gridded(m)
    && forall p, i {:trigger m.entries[p].of[i]} :: p in m.entries && i in m.entries[p].of ==>
         AtByte(origin, i, m.entries[p].of[i])
  }

  predicate AtByte(bytes: seq<Byte>, i: nat, b: Byte) { i < |bytes| && bytes[i] == b }

  /** What a published manifest has to agree with: it names no identity yet to come,
      and if it names the current one at the current size, it describes the object. */
  ghost predicate PublishedOk(m: Manifest, bytes: seq<Byte>, oid: OriginId) {
    m.identity.Some? ==>
      && !Newer(oid, m.identity.value)
      && (m.identity.value == oid && m.size == |bytes| ==> Describes(m, bytes))
  }

  /** The window in which the entry carries the new identity and old marks. */
  predicate InWindow(w: World) { w.mut.Write? && w.mut.phase.Sized? && w.mut.phase.stale }

  function PutFill(w: World, p: nat, f: Fill): World { w.(fills := w.fills[p := f]) }

  /** The bytes a fill has to bring, by the length it claimed. */
  function FillBytes(f: Fill, p: nat, ps: Grid): set<nat> {
    PieceBytes(p, Offset(p, ps) + f.len, ps)
  }

  /* ---- a local write: origin first, then this node's cache ---- */

  /** Nothing of this node's is in flight, and it has looked since anyone else's. */
  predicate Settling(w: World) { w.mut.Idle? || (w.mut.Rewritten? && w.e.id == w.oid) }

  /** The kernel issues no empty write. */
  predicate CanWriteIssue(w: World, data: seq<Byte>) { Settling(w) && data != [] }

  function DoWriteIssue(w: World, off: nat, data: seq<Byte>): World { w.(mut := Write(off, data, Issued)) }

  predicate Running(w: World) { w.mut.Write? && (w.mut.phase.Issued? || w.mut.phase.Torn?) }

  ghost predicate CanWriteTear(w: World, after: seq<Byte>, id: OriginId) {
    Running(w) && Newer(w.oid, id) && TearOf(w.origin, w.mut.off, |w.mut.data|, after)
  }

  function DoWriteTear(w: World, after: seq<Byte>, id: OriginId): World
    requires w.mut.Write?
  {
    OriginMoves(w, after, id, w.mut.(phase := Torn))
  }

  predicate CanWriteLand(w: World, id: OriginId) { Running(w) && Newer(w.oid, id) }

  function DoWriteLand(w: World, id: OriginId): World
    requires w.mut.Write?
  {
    OriginMoves(w, Overwrite(w.origin, w.mut.off, w.mut.data), id, w.mut.(phase := Landed))
  }

  predicate CanWriteFail(w: World) { w.mut.Write? && w.mut.phase.Issued? && FileMuFree(w) }

  predicate CanOwnStatFail(w: World) { w.mut.Write? && w.mut.phase.Landed? && FileMuFree(w) }

  /** A failed origin write, or one whose result could not be observed. */
  ghost function DoDistrust(w: World): World { Noted(w, w.(mut := Idle, e := Distrust(w.e))) }

  predicate CanOwnStat(w: World, deferred: bool, cut: bool) {
    w.mut.Write? && w.mut.phase.Landed? && w.lock.Free? && (Busy(w) ==> deferred && !cut)
  }

  predicate CanOwnRetry(w: World, cut: bool) {
    w.mut.Write? && w.mut.phase.Landed? && w.lock.Free? && (Busy(w) ==> !cut)
  }

  /** The stat after the origin write failed and a second one did not: whatever that
      shows goes through `getIdentified`, and no note follows. */
  ghost function DoOwnRetry(w: World, size: nat, id: OriginId, cut: bool, saved: bool): World
    requires w.mut.Write?
  {
    Noted(w, w.(e := Reconcile(w.e, size, id, Busy(w), cut, saved, w.ps),
                mut := w.mut.(phase := Observed(None))))
  }

  /** The stat after the origin write: an end that matches goes through
      `cacheFillIdentified`, which skips the copy when a shrink finds no memory;
      anything else goes through `getIdentified`. */
  ghost function DoOwnStat(w: World, size: nat, id: OriginId, deferred: bool, cut: bool, saved: bool): World
    requires w.mut.Write?
  {
    var end := w.mut.off + |w.mut.data|;
    if size == end then
      var e := FillSize(w.e, end, id, Busy(w), deferred, cut, saved, w.ps);
      Noted(w, w.(e := e, mut := if NoMemory(w.e, end, Busy(w), deferred) then Idle
                                 else w.mut.(phase := Sized(e.id != w.e.id, None))))
    else
      Noted(w, w.(e := Reconcile(w.e, size, id, Busy(w), cut, saved, w.ps),
                  mut := w.mut.(phase := Observed(Some(id)))))
  }

  predicate CanOwnGrow(w: World, deferred: bool) {
    w.mut.Write? && w.mut.phase.Observed? && w.lock.Free? && (Busy(w) ==> deferred)
  }

  ghost function DoOwnGrow(w: World, deferred: bool, saved: bool): World
    requires w.mut.Write? && w.mut.phase.Observed?
  {
    Noted(w, w.(e := GrowTo(w.e, w.mut.off + |w.mut.data|, deferred, saved, w.ps),
                mut := w.mut.(phase := Sized(false, w.mut.phase.note))))
  }

  predicate CanCopyPwrite(w: World) { w.mut.Write? && w.mut.phase.Sized? && w.lock.Free? }

  /** The pwrite half of `copyIntoCache`: refused under a transfer, and a failed
      one may leave any part of the buffer (`keep`) in the cache file. */
  function DoCopyPwrite(w: World, keep: set<nat>): World
    requires w.mut.Write?
  {
    var x := Extend(w.mut.off, w.mut.data);
    if Busy(w) then w.(lock := Copying(false))
    else w.(e := w.e.(cache := w.e.cache + Restrict(x, keep)), lock := Copying(x.Keys <= keep))
  }

  predicate CanCopyEnd(w: World) { w.mut.Write? && w.mut.phase.Sized? && w.lock.Copying? }

  ghost function DoCopyEnd(w: World, saved: bool): World
    requires CanCopyEnd(w)
  {
    Noted(w, w.(e := CopyMark(w.e, w.mut.off, w.mut.data, w.lock.copied, saved, w.ps),
                mut := if w.mut.phase.note.Some? then w.mut.(phase := Noting(w.mut.phase.note.value)) else Idle,
                lock := Free))
  }

  predicate CanOwnNote(w: World) { w.mut.Write? && w.mut.phase.Noting? && FileMuFree(w) }

  ghost function DoOwnNote(w: World, saved: bool): World
    requires CanOwnNote(w)
  {
    var n := NoteId(w.e, w.mut.phase.sample);
    Noted(w, w.(e := Save(n, saved && n != w.e), mut := Idle))
  }

  /* ---- a local truncate ---- */

  predicate CanTruncIssue(w: World) { Settling(w) }

  function DoTruncIssue(w: World, n: nat): World { w.(mut := Trunc(n, false)) }

  predicate CanTruncLand(w: World, id: OriginId) { w.mut.Trunc? && !w.mut.landed && Newer(w.oid, id) }

  function DoTruncLand(w: World, id: OriginId): World
    requires w.mut.Trunc?
  {
    OriginMoves(w, Resized(w.origin, w.mut.size), id, w.mut.(landed := true))
  }

  predicate CanTruncFail(w: World) { w.mut.Trunc? && !w.mut.landed }

  function DoTruncFail(w: World): World { w.(mut := Idle) }

  predicate CanTruncApply(w: World, cut: bool) {
    w.mut.Trunc? && w.mut.landed && w.lock.Free? && (Busy(w) ==> !cut)
  }

  ghost function DoTruncApply(w: World, resized: bool, cut: bool, saved: bool): World
    requires w.mut.Trunc?
  {
    Noted(w, w.(e := Truncate(w.e, w.mut.size, Busy(w), resized, cut, saved, w.ps), mut := Idle))
  }

  /* ---- an open or getattr applies its origin stat ---- */

  predicate CanStat(w: World, cut: bool) { w.lock.Free? && (Busy(w) ==> !cut) }

  ghost function DoStat(w: World, size: nat, id: OriginId, cut: bool, saved: bool): World {
    Noted(w, w.(e := Reconcile(w.e, size, id, Busy(w), cut, saved, w.ps)))
  }

  /* ---- a fill: claim, bytes from the origin or a verified peer, admit ---- */

  predicate CanBeginFill(w: World, p: nat) {
    FileMuFree(w) && p < MAX_PIECES && p !in w.e.bits && p !in w.e.filling && Len(w.e.size, p, w.ps) > 0
  }

  function DoBeginFill(w: World, p: nat): World {
    PutFill(w.(e := Claim(w.e, p)), p, Fill(Len(w.e.size, p, w.ps), None, None))
  }

  predicate FillOpen(w: World, p: nat) { p in w.fills && p in w.e.filling && !Completing(w, p) }

  /** An origin read races the mutation in flight inside its range only. */
  ghost predicate CanOriginRead(w: World, p: nat, buf: Extent) {
    FillOpen(w, p) && buf.Keys == FillBytes(w.fills[p], p, w.ps) &&
    (w.e.filling[p] == w.e.writes ==>
       forall i {:trigger buf[i]} :: i in buf && !Dirty(w, i) ==> i < |w.origin| && w.origin[i] == buf[i])
  }

  function DoHold(w: World, p: nat, buf: Extent): World
    requires p in w.fills
  {
    PutFill(w, p, w.fills[p].(buf := Some(buf)))
  }

  /** `expectedHash`. The code consults peers only when `writes` was still zero at
      the start of the hydration, before the claim; here it always may. */
  predicate CanWantHash(w: World, p: nat) { FileMuFree(w) && FillOpen(w, p) }

  function DoWantHash(w: World, p: nat): World
    requires p in w.fills
  {
    PutFill(w, p, w.fills[p].(want := if p in w.e.hashes then Some(w.e.hashes[p]) else None))
  }

  /** Arbitrary peer bytes are held only when they meet the trusted digest. */
  predicate CanPeerAdmit(w: World, p: nat, buf: Extent) {
    FillOpen(w, p) && buf.Keys == FillBytes(w.fills[p], p, w.ps) && w.fills[p].want == Some(Blake3(buf))
  }

  predicate CanAbortFill(w: World, p: nat) { FileMuFree(w) && FillOpen(w, p) }

  ghost function DoAbortFill(w: World, p: nat, saved: bool): World {
    Noted(w, w.(e := FinishPiece(w.e, p, false, 0, Blake3(map[]), saved, w.ps), fills := w.fills - {p}))
  }

  predicate CanFillCheck(w: World, p: nat) { w.lock.Free? && FillOpen(w, p) && w.fills[p].buf.Some? }

  function DoFillCheck(w: World, p: nat): World
    requires CanFillCheck(w, p)
  {
    var buf := w.fills[p].buf.value;
    if FillStands(w.e, p, w.fills[p].len, w.ps)
    then w.(lock := Landing(p, buf, false, set i | i in buf && !Dirty(w, i)))
    else w.(e := Unclaim(w.e, p), fills := w.fills - {p})
  }

  predicate CanFillPwrite(w: World) { w.lock.Landing? && !w.lock.written }

  function DoFillPwrite(w: World, keep: set<nat>): World
    requires w.lock.Landing?
  {
    w.(e := w.e.(cache := w.e.cache + Restrict(w.lock.buf, keep)),
       lock := w.lock.(written := w.lock.buf.Keys <= keep))
  }

  predicate CanFillEnd(w: World) { w.lock.Landing? && w.lock.piece in w.fills }

  ghost function DoFillEnd(w: World, saved: bool): World
    requires CanFillEnd(w)
  {
    var p := w.lock.piece;
    Noted(w, w.(e := FinishPiece(w.e, p, w.lock.written, w.fills[p].len, Blake3(w.lock.buf), saved, w.ps),
                fills := w.fills - {p}, lock := Free))
  }

  /* ---- cull and self-heal ---- */

  predicate CanPunchSave(w: World, p: nat) {
    w.lock.Free? && p !in w.e.filling && !Busy(w) && p in w.e.bits
  }

  /** Write-ahead: the cleared mark is durable before the hole may be cut. */
  ghost function DoPunchSave(w: World, p: nat, durable: bool, saved: bool): World {
    if durable then Noted(w, w.(e := Save(w.e.(bits := w.e.bits - {p}), true), lock := Punch(p)))
    else Noted(w, w.(e := Save(w.e, saved)))
  }

  ghost function DoPunchCut(w: World, ok: bool, saved: bool): World
    requires w.lock.Punch?
  {
    var p := w.lock.idx;
    if Busy(w) || !ok then Noted(w, w.(e := Save(w.e.(bits := w.e.bits + {p}), saved), lock := Free))
    else w.(e := w.e.(cache := w.e.cache - PieceBytes(p, w.e.size, w.ps)), lock := Free)
  }

  predicate CanHeal(w: World, p: nat) { w.lock.Free? && p in w.e.bits }

  ghost function DoHeal(w: World, p: nat, saved: bool): World {
    Noted(w, w.(e := Save(w.e.(bits := w.e.bits - {p}), saved)))
  }

  /* ---- lazy manifest load ---- */

  predicate CanLoadStart(w: World, t: nat) {
    FileMuFree(w) && t !in w.loads && !w.e.loading && w.e.manifestSize != Some(w.e.size)
  }

  function DoLoadStart(w: World, t: nat): World {
    w.(e := w.e.(loading := true), loads := w.loads[t := w.e.writes])
  }

  predicate CanLoadFail(w: World, t: nat) { FileMuFree(w) && t in w.loads }

  function DoLoadFail(w: World, t: nat, remember: bool): World {
    w.(e := w.e.(loading := false,
                 manifestSize := if remember then Some(w.e.size) else w.e.manifestSize),
       loads := w.loads - {t})
  }

  ghost predicate CanLoadMerge(w: World, t: nat, m: Manifest) {
    FileMuFree(w) && t in w.loads && m.(mtimeOld := false) in w.published
  }

  function DoLoadMerge(w: World, t: nat, m: Manifest): World
    requires t in w.loads
  {
    w.(e := MergeManifest(w.e, m, w.loads[t], w.ps), loads := w.loads - {t})
  }

  /* ---- manifests on the origin ---- */

  /** `publishManifest`: the digests below the count of a size sampled before, with
      the identity of now. Both are read under `file.mu` alone, whatever write is in
      flight. Whether its file's age passes is up to the load. */
  function Snapshot(w: World, n: nat): Manifest {
    Manifest(w.ps, n, map p | p in w.e.hashes && p < Count(n, w.ps) :: w.e.hashes[p],
             if w.e.id.known then Some(w.e.id) else None, false)
  }

  predicate CanPublish(w: World, n: nat) { FileMuFree(w) && Snapshot(w, n).entries != map[] }

  function DoPublish(w: World, m: Manifest): World { w.(published := w.published + {m}) }

  /* ---- other nodes, and a save that fails half-way ---- */

  /** In place, or by a rename over the path: the new inode comes with any mtime. */
  predicate CanForeignRewrite(w: World, id: OriginId) { (w.mut.Idle? || w.mut.Rewritten?) && id.known }

  function DoForeignRewrite(w: World, after: seq<Byte>, id: OriginId): World { OriginMoves(w, after, id, Rewritten) }

  /** The save before the last step left part of the blob: a restart throws it away,
      or takes it for a sidecar without identity if it broke off after the field. */
  ghost function DoTearSidecar(w: World, bare: bool): World {
    var torn := if bare then Some(Sidecar(w.e.size, w.e.nbits, w.e.bits, w.e.id.(known := false))) else None;
    Noted(w, w.(e := w.e.(sidecar := torn)))
  }

  /* ---- transfers: FUSE reads and peer sends ---- */

  predicate CanBeginXfer(w: World, r: nat) { w.lock.Free? && r !in w.readers }

  function DoBeginXfer(w: World, r: nat): World { w.(readers := w.readers[r := Reader({}, {})]) }

  predicate CanObserve(w: World, r: nat, p: nat) { r in w.readers && p in w.e.bits }

  function DoObserve(w: World, r: nat, p: nat): World
    requires r in w.readers
  {
    var now := PieceBytes(p, w.e.size, w.ps);
    w.(readers := w.readers[r := Reader(w.readers[r].seen + now,
       w.readers[r].clean + (set i | i in now && !Dirty(w, i)))])
  }

  function DoEndXfer(w: World, r: nat): World { w.(readers := w.readers - {r}) }

  /* ---- one step ---- */

  /** What the code itself checks, and what the environment may answer. */
  ghost predicate Enabled(w: World, a: Action) {
    match a
    case WriteIssue(_, data) => CanWriteIssue(w, data)
    case WriteTear(after, id) => CanWriteTear(w, after, id)
    case WriteLand(id) => CanWriteLand(w, id)
    case WriteFail => CanWriteFail(w)
    case OwnStat(_, _, deferred, cut, _) => CanOwnStat(w, deferred, cut)
    case OwnRetry(_, _, cut, _) => CanOwnRetry(w, cut)
    case OwnGrow(deferred, _) => CanOwnGrow(w, deferred)
    case OwnStatFail => CanOwnStatFail(w)
    case CopyPwrite(_) => CanCopyPwrite(w)
    case CopyEnd(_) => CanCopyEnd(w)
    case OwnNote(_) => CanOwnNote(w)
    case TruncIssue(_) => CanTruncIssue(w)
    case TruncLand(id) => CanTruncLand(w, id)
    case TruncFail => CanTruncFail(w)
    case TruncApply(_, cut, _) => CanTruncApply(w, cut)
    case Stat(_, _, cut, _) => CanStat(w, cut)
    case BeginFill(p) => CanBeginFill(w, p)
    case OriginRead(p, buf) => CanOriginRead(w, p, buf)
    case WantHash(p) => CanWantHash(w, p)
    case PeerAdmit(p, buf) => CanPeerAdmit(w, p, buf)
    case AbortFill(p, _) => CanAbortFill(w, p)
    case FillCheck(p) => CanFillCheck(w, p)
    case FillPwrite(_) => CanFillPwrite(w)
    case FillEnd(_) => CanFillEnd(w)
    case PunchSave(p, _, _) => CanPunchSave(w, p)
    case PunchCut(_, _) => w.lock.Punch?
    case Heal(p, _) => CanHeal(w, p)
    case LoadStart(t) => CanLoadStart(w, t)
    case LoadFail(t, _) => CanLoadFail(w, t)
    case LoadMerge(t, m) => CanLoadMerge(w, t, m)
    case BeginXfer(r) => CanBeginXfer(w, r)
    case Observe(r, p) => CanObserve(w, r, p)
    case EndXfer(r) => r in w.readers
    case RawBegin => true
    case RawEnd => w.raw > 0
    case Crash(_) => true
    case TearSidecar(_) => FileMuFree(w)
    case Publish(n) => CanPublish(w, n)
    case ForeignPublish(_) => true
    case ForeignRewrite(_, id) => CanForeignRewrite(w, id)
  }

  /** What the environment must not do for the guarantees to hold.
      ProtocolFindings.dfy shows what one such step breaks. */
  ghost predicate Orderly(w: World, a: Action) {
    match a
    case OwnStat(size, id, deferred, _, saved) => OwnStatFits(w, size, id, deferred, saved)
    case OwnRetry(size, id, _, saved) => StatFits(w, size, id, saved)
    case Stat(size, id, _, saved) => StatFits(w, size, id, saved)
    case LoadMerge(t, m) => t in w.loads ==> MergeFits(w, t, m) || (Gridded(m) && TakesAny(w, m.identity.Some?))
    case Crash(look) => LookFits(w, look) && !Mistaken(w, look)
    case TearSidecar(bare) => bare ==> w.e.bits == {}
    case Publish(n) => PublishFits(w, n)
    case ForeignPublish(m) => PublishedOk(m, w.origin, w.oid)
    case ForeignRewrite(_, id) => Supersedes(w, id)
    case _ => true
  }

  /** `id` names what is at the path now, or something that a look at it shows to be
      gone: an older state of the object, or an object under another inode. */
  predicate KnownId(id: OriginId, oid: OriginId) {
    id.known && oid.known && (id == oid || ContentChanged(id, oid))
  }

  /** Every identity on record is seen to be gone once `now` is there. An inode that is
      reused has to come with a newer mtime. */
  ghost predicate Supersedes(w: World, now: OriginId) {
    && ContentChanged(w.e.id, now)
    && (w.e.sidecar.Some? && w.e.sidecar.value.id.known ==> ContentChanged(w.e.sidecar.value.id, now))
    && forall m :: m in w.published && m.identity.Some? && m.identity.value.known ==>
         ContentChanged(m.identity.value, now)
  }

  /** The identity the write in flight sampled after it landed, if it keeps it. */
  function OwnSample(phase: Phase): Option<OriginId> {
    match phase
    case Observed(note) => note
    case Sized(_, note) => note
    case Noting(sample) => Some(sample)
    case _ => None
  }

  /** Going back to an identity from before a landed mutation would put bytes in
      flux again that the sidecar on disk or a transfer relies on. */
  ghost predicate CanGoBack(w: World, id: OriginId, saved: bool) {
    (saved || Elsewhere(w.e.sidecar, w.oid)) && NoneBack(w, id)
  }

  predicate Elsewhere(sidecar: Option<Sidecar>, oid: OriginId) { sidecar.None? || sidecar.value.id != oid }

  ghost predicate NoneBack(w: World, id: OriginId) {
    forall r, i {:trigger i in w.readers[r].clean} :: r in w.readers && i in w.readers[r].clean ==>
      !InFlux(OriginOf(w).(seen := id), i)
  }

  /** A mutation that may have left fewer bytes than were there. */
  predicate Reshaped(m: Mutation) { m.Rewritten? || (m.Trunc? && m.landed) }

  /** A look at the origin that may wipe the entry to its size and identity. One
      that names the current object shows its size; an older one shows no more
      bytes than there are, does not cut off a write between its size step and
      its copy, and is not older than the look the write in flight took. */
  ghost predicate WipeFits(w: World, size: nat, id: OriginId, saved: bool) {
    && KnownId(id, w.oid)
    && (if id == w.oid then size == |w.origin| else size <= |w.origin| || Reshaped(w.mut))
    && (w.mut.Write? && w.mut.phase.Sized? ==> w.mut.off + |w.mut.data| <= size)
    && (w.mut.Write? && OwnSample(w.mut.phase).Some? ==> !ContentChanged(id, OwnSample(w.mut.phase).value))
    && (w.e.id == w.oid && id != w.oid ==> CanGoBack(w, id, saved))
  }

  /** The entry already has this size and knows nothing older. */
  predicate NoNews(w: World, size: nat, id: OriginId) { size == w.e.size && !ContentChanged(w.e.id, id) }

  ghost predicate StatFits(w: World, size: nat, id: OriginId, saved: bool) {
    NoNews(w, size, id) || WipeFits(w, size, if id.known then id else w.e.id, saved)
  }

  /** The look after a write that shows its end: the entry takes its identity if
      that is newer, and it may be that of a torn write before it. */
  ghost predicate OwnStatFits(w: World, size: nat, id: OriginId, deferred: bool, saved: bool) {
    if w.mut.Write? && size == w.mut.off + |w.mut.data| then
      var now := NoteId(w.e, id).id;
      var sidecar := FillSize(w.e, size, id, Busy(w), deferred, false, saved, w.ps).sidecar;
      || NoMemory(w.e, size, Busy(w), deferred)
      || (&& KnownId(now, w.oid) && (now == w.oid ==> size == |w.origin|)
          && (w.e.id == w.oid && now != w.oid ==> Elsewhere(sidecar, w.oid) && NoneBack(w, now)))
    else StatFits(w, size, id, saved)
  }

  /** A digest of piece p's bytes as they are: at the origin outside the bytes in
      flux, and in the cache file when the piece is marked. */
  ghost predicate DigestFits(w: World, p: nat, d: Digest) {
    && p < MAX_PIECES && Offset(p, w.ps) < w.e.size && d.of.Keys == PieceBytes(p, w.e.size, w.ps)
    && forall i {:trigger d.of[i]} :: i in d.of ==>
         && (Dirty(w, i) || (i < |w.origin| && w.origin[i] == d.of[i]))
         && (p in w.e.bits ==>
               && i in w.e.cache
               && (w.e.cache[i] == d.of[i] ||
                   (w.lock.Copying? && InFlight(w.mut, i) && i < |w.origin| && w.origin[i] == w.e.cache[i])))
  }

  /** A publish between a write's size step and its copy names the new identity: none
      of its digests may cover a byte that the write changes. */
  predicate PublishFits(w: World, n: nat) {
    InWindow(w) && w.e.id == w.oid && n == |w.origin| ==>
      forall p, i {:trigger i in w.e.hashes[p].of} ::
        p in w.e.hashes && p < Count(n, w.ps) && i in w.e.hashes[p].of && InRange(w.mut.off, |w.mut.data|, i) ==>
          w.e.hashes[p].of[i] == w.mut.data[i - w.mut.off]
  }

  /** The cache has the origin's byte wherever it claims to. */
  predicate Matched(w: World, i: nat) {
    PieceOf(i, w.ps) in w.e.bits ==> i in w.e.cache && i < |w.origin| && w.e.cache[i] == w.origin[i]
  }

  /** Nothing relies on byte i: the origin is about to be asked for it again. */
  predicate Immune(w: World, i: nat) {
    Dirty(w, i) && (PieceOf(i, w.ps) in w.e.bits ==> w.lock.Copying? && InFlight(w.mut, i) && Matched(w, i))
  }

  /** The pieces without a digest can take any that a manifest may bring: one that
      names its identity when `named`, one that does not otherwise. */
  predicate TakesAny(w: World, named: bool) {
    forall i: nat {:trigger PieceOf(i, w.ps)} ::
      i < w.e.size && PieceOf(i, w.ps) < MAX_PIECES && PieceOf(i, w.ps) !in w.e.hashes ==>
        if named && w.e.id == w.oid then Matched(w, i) else Immune(w, i)
  }

  /** What a manifest adds, when it is admitted, describes the object. */
  ghost predicate MergeFits(w: World, t: nat, m: Manifest)
    requires t in w.loads
  {
    ManifestFits(w.e, m, w.loads[t], w.ps) ==>
      forall p :: p in m.entries && p !in w.e.hashes ==> DigestFits(w, p, m.entries[p])
  }

  /** One step of the daemon or of its environment. */
  ghost function Apply(w: World, a: Action): World
    requires Enabled(w, a)
  {
    match a
    case WriteIssue(off, data) => DoWriteIssue(w, off, data)
    case WriteTear(after, id) => DoWriteTear(w, after, id)
    case WriteLand(id) => DoWriteLand(w, id)
    case WriteFail => DoDistrust(w)
    case OwnStat(size, id, deferred, cut, saved) => DoOwnStat(w, size, id, deferred, cut, saved)
    case OwnRetry(size, id, cut, saved) => DoOwnRetry(w, size, id, cut, saved)
    case OwnGrow(deferred, saved) => DoOwnGrow(w, deferred, saved)
    case OwnStatFail => DoDistrust(w)
    case CopyPwrite(keep) => DoCopyPwrite(w, keep)
    case CopyEnd(saved) => DoCopyEnd(w, saved)
    case OwnNote(saved) => DoOwnNote(w, saved)
    case TruncIssue(n) => DoTruncIssue(w, n)
    case TruncLand(id) => DoTruncLand(w, id)
    case TruncFail => DoTruncFail(w)
    case TruncApply(resized, cut, saved) => DoTruncApply(w, resized, cut, saved)
    case Stat(size, id, cut, saved) => DoStat(w, size, id, cut, saved)
    case BeginFill(p) => DoBeginFill(w, p)
    case OriginRead(p, buf) => DoHold(w, p, buf)
    case WantHash(p) => DoWantHash(w, p)
    case PeerAdmit(p, buf) => DoHold(w, p, buf)
    case AbortFill(p, saved) => DoAbortFill(w, p, saved)
    case FillCheck(p) => DoFillCheck(w, p)
    case FillPwrite(keep) => DoFillPwrite(w, keep)
    case FillEnd(saved) => DoFillEnd(w, saved)
    case PunchSave(p, durable, saved) => DoPunchSave(w, p, durable, saved)
    case PunchCut(ok, saved) => DoPunchCut(w, ok, saved)
    case Heal(p, saved) => DoHeal(w, p, saved)
    case LoadStart(t) => DoLoadStart(w, t)
    case LoadFail(t, remember) => DoLoadFail(w, t, remember)
    case LoadMerge(t, m) => DoLoadMerge(w, t, m)
    case BeginXfer(r) => DoBeginXfer(w, r)
    case Observe(r, p) => DoObserve(w, r, p)
    case EndXfer(r) => DoEndXfer(w, r)
    case RawBegin => w.(raw := w.raw + 1)
    case RawEnd => w.(raw := w.raw - 1)
    case Crash(look) => Reloaded(w, look)
    case TearSidecar(bare) => DoTearSidecar(w, bare)
    case Publish(n) => DoPublish(w, Snapshot(w, n))
    case ForeignPublish(m) => DoPublish(w, m.(mtimeOld := false))
    case ForeignRewrite(after, id) => DoForeignRewrite(w, after, id)
  }

  /** A run: the worlds an action sequence goes through. */
  ghost predicate Runs(w: World, acts: seq<Action>)
    decreases |acts|
  {
    acts == [] || (Enabled(w, acts[0]) && Runs(Apply(w, acts[0]), acts[1..]))
  }

  ghost function After(w: World, acts: seq<Action>): World
    requires Runs(w, acts)
    decreases |acts|
  {
    if acts == [] then w else After(Apply(w, acts[0]), acts[1..])
  }

  ghost predicate OrderlyRun(w: World, acts: seq<Action>)
    requires Runs(w, acts)
    decreases |acts|
  {
    acts == [] || (Orderly(w, acts[0]) && OrderlyRun(Apply(w, acts[0]), acts[1..]))
  }

  /** A cold entry: nothing marked, whatever the cache file still holds and whatever
      was published, if it was in order. */
  ghost predicate Init(w: World) {
    && w.oid.known && w.mut.Idle? && w.lock.Free?
    && w.fills == map[] && w.readers == map[] && w.raw == 0 && w.loads == map[] && w.exposed == {}
    && (forall m :: m in w.published ==> PublishedOk(m, w.origin, w.oid))
    && w.e == Entry(|w.origin|, Count(|w.origin|, w.ps), {}, w.e.storage, w.e.cache, map[], 0, map[],
                    w.oid, None, false, None)
  }
}
