/** One live cache entry (`Store.Cached`) as a value, and what each locked
    section of src/store.zig and src/fuse_fs.zig turns it into. The class in
    CachedEntry.dfy runs the same sections step by step; Protocol.dfy
    interleaves them. */
module Entries {
  import opened Pieces

  /** mtime (seconds, nanoseconds) and inode of the origin object. */
  datatype OriginId = OriginId(sec: int, nsec: int, ino: nat, known: bool)

  /** blake3 is taken as injective: a digest is the bytes it was taken of. */
  datatype Digest = Blake3(of: Extent)

  /** The persisted piece sidecar under `meta/`, with its identity trailer. */
  datatype Sidecar = Sidecar(size: nat, nbits: nat, bits: set<nat>, id: OriginId)

  datatype Manifest = Manifest(ps: Grid, size: nat, entries: map<nat, Digest>,
                               identity: Option<OriginId>, mtimeOld: bool)

  datatype Entry = Entry(
    size: nat,
    nbits: nat,                    // capacity of the bitfield buffer
    bits: set<nat>,                // pieces marked as held
    storage: nat,                  // identity of the bitfield's allocation
    cache: Extent,                 // cache file; an absent position is a hole
    hashes: map<nat, Digest>,      // trusted digests
    writes: nat,                   // write generation
    filling: map<nat, nat>,        // fill claims: piece -> generation
    id: OriginId,                  // origin identity last observed
    manifestSize: Option<nat>,     // size the manifest was loaded for
    loading: bool,                 // manifest load claim
    sidecar: Option<Sidecar>)

  /** A different object, or a strictly newer write of the same one. An older
      mtime on the same inode is attribute lag, not a rewrite. */
  predicate ContentChanged(recorded: OriginId, observed: OriginId) {
    recorded.known && observed.known &&
    (recorded.ino != observed.ino ||
     (if observed.sec != recorded.sec then observed.sec > recorded.sec
      else observed.nsec > recorded.nsec))
  }

  predicate SameId(a: OriginId, b: OriginId) {
    a.known && b.known && a.ino == b.ino && a.sec == b.sec && a.nsec == b.nsec
  }

  function Save(e: Entry, saved: bool): Entry {
    if saved then e.(sidecar := Some(Sidecar(e.size, e.nbits, e.bits, e.id))) else e
  }

  function ClearHashes(e: Entry): Entry {
    e.(hashes := map[], manifestSize := None)
  }

  /** A fresh empty field replaces the buffer. */
  function Swap(e: Entry, nbits: nat): Entry {
    e.(bits := {}, nbits := nbits, storage := e.storage + 1)
  }

  /** `Bitfield.resize`: keeps the surviving bits, and reallocates the buffer
      when its length in bytes changes. */
  function Resize(e: Entry, nbits: nat): Entry {
    e.(bits := (set p | p in e.bits && p < nbits),
       nbits := nbits,
       storage := if BytesLen(nbits) == BytesLen(e.nbits) then e.storage else e.storage + 1)
  }

  function CutCache(e: Entry, n: nat, cut: bool): Entry {
    if cut then e.(cache := Cut(e.cache, n)) else e
  }

  /** Piece whose mark a grow past a non-aligned size would silently widen. */
  function WideningPiece(size: nat, ps: Grid): Option<nat> {
    if size == 0 || size % ps == 0 then None else Some(Min(PieceOf(size, ps), MAX_PIECES))
  }

  function DropWidening(e: Entry, saved: bool, ps: Grid): Entry {
    match WideningPiece(e.size, ps)
    case None => e
    case Some(k) =>
      var d := e.(bits := e.bits - {k}, hashes := e.hashes - {k});
      if k in e.bits then Save(d, saved) else d
  }

  /** `growToLocked`. `deferred` is a transfer in flight or a failed realloc. */
  function GrowTo(e: Entry, end: nat, deferred: bool, saved: bool, ps: Grid): Entry {
    if end <= e.size then e
    else
      var d := DropWidening(e, saved, ps);
      var r := if deferred then d else Resize(d, Count(end, ps));
      r.(size := end)
  }

  /** The wipe a size change, rewrite or shrink shares: marks and digests go,
      the generation moves, the sidecar is saved best-effort. */
  function Wipe(e: Entry, size: nat, id: OriginId, busy: bool, cut: bool, saved: bool, ps: Grid): Entry {
    var f := if busy then e.(bits := {}) else Swap(e, Count(size, ps));
    Save(CutCache(ClearHashes(f).(size := size, writes := e.writes + 1, id := id), size, cut), saved)
  }

  function AdoptId(e: Entry, id: OriginId, saved: bool): Entry {
    if !id.known || e.id.known then e
    else Save(e.(id := id), saved && e.bits != {})
  }

  /** `reconcile`: bring the entry in line with one origin stat. */
  function Reconcile(e: Entry, size: nat, id: OriginId, busy: bool, cut: bool, saved: bool, ps: Grid): Entry {
    if e.size == size && !ContentChanged(e.id, id) then AdoptId(e, id, saved)
    else Wipe(e, size, if id.known then id else e.id, busy, cut, saved, ps)
  }

  function NoteId(e: Entry, id: OriginId): Entry {
    if id.known && (!e.id.known || ContentChanged(e.id, id)) then e.(id := id) else e
  }

  /** A shrink that finds no memory for its field. */
  predicate NoMemory(e: Entry, end: nat, busy: bool, deferred: bool) { end < e.size && !busy && deferred }

  /** Marks and digests go; the recorded size and identity stay. */
  function DropMarks(e: Entry, saved: bool): Entry {
    Save(ClearHashes(e.(bits := {}, writes := e.writes + 1)), saved)
  }

  /** The locked size mutation at the head of `cacheFillIdentified`. */
  function FillSize(e: Entry, end: nat, id: OriginId, busy: bool, deferred: bool, cut: bool, saved: bool,
      ps: Grid): Entry {
    if NoMemory(e, end, busy, deferred) then DropMarks(e, saved)
    else
      var s := if end > e.size then GrowTo(e, end, deferred, saved, ps)
               else if end < e.size then Wipe(e, end, e.id, busy, cut, saved, ps)
               else e;
      NoteId(s, id)
  }

  /** Every piece of the aligned range is marked and its digest is the write's:
      a retry of a write-through that is already applied. */
  predicate AlreadyApplied(e: Entry, off: nat, data: seq<Byte>, ps: Grid) {
    var c := FullCover(off, |data|, ps);
    && c.start < c.end
    && Offset(c.start, ps) == off && Offset(c.end, ps) - off == |data|
    && (forall p :: c.start <= p < c.end ==>
          p in e.bits && p in e.hashes && e.hashes[p] == Blake3(InPiece(Extend(off, data), p, ps)))
  }

  function CoverSet(c: Span): set<nat> { set p: nat | p < c.end && c.Has(p) }

  /** Digests after a landed copy: fully covered pieces take the write's, the
      pieces it only partly covers lose theirs. */
  function CopyHashes(e: Entry, off: nat, data: seq<Byte>, ps: Grid): (h: map<nat, Digest>)
    ensures forall p :: p in h <==>
              FullCover(off, |data|, ps).Has(p) ||
              (p in e.hashes && !Cover(off, |data|, e.size, ps).Has(p))
    ensures forall p :: p in h ==>
              h[p] == if FullCover(off, |data|, ps).Has(p) then Blake3(InPiece(Extend(off, data), p, ps))
                      else if p in e.hashes then e.hashes[p] else h[p]
  {
    var full := FullCover(off, |data|, ps);
    var some := Cover(off, |data|, e.size, ps);
    map p | p in (e.hashes.Keys - CoverSet(some)) + CoverSet(full) ::
      if full.Has(p) then Blake3(InPiece(Extend(off, data), p, ps)) else e.hashes[p]
  }

  /** The marking half of `copyIntoCache`, after the pwrite succeeded or not. */
  function CopyMark(e: Entry, off: nat, data: seq<Byte>, copied: bool, saved: bool, ps: Grid): Entry {
    if AlreadyApplied(e, off, data, ps) then e
    else if copied then
      Save(e.(writes := e.writes + 1,
              bits := e.bits + (set p | p in CoverSet(FullCover(off, |data|, ps)) && p < e.nbits),
              hashes := CopyHashes(e, off, data, ps)), saved)
    else
      var gone := CoverSet(Cover(off, |data|, e.size, ps));
      Save(e.(writes := e.writes + 1, bits := e.bits - gone, hashes := e.hashes - gone), saved)
  }

  /** `mf_truncate` on a live entry once the origin has its new length; `resized`
      says whether there was memory for the new field, in either arm. */
  function Truncate(e: Entry, n: nat, busy: bool, resized: bool, cut: bool, saved: bool, ps: Grid): Entry {
    if e.size == n then CutCache(e, n, cut)
    else
      var f := if !resized then e.(bits := {})
               else if busy then Resize(e.(bits := {}), Count(n, ps))
               else Swap(e, Count(n, ps));
      CutCache(Save(ClearHashes(f.(size := n, writes := e.writes + 1)), saved), n, cut)
  }

  /** `distrust`: marks, digests and the sidecar go, the bytes stay. */
  function Distrust(e: Entry): Entry {
    ClearHashes(e.(bits := {}, writes := e.writes + 1, sidecar := None))
  }

  function Claim(e: Entry, p: nat): Entry {
    e.(filling := e.filling[p := e.writes])
  }

  /** `completeFill`'s test before the pwrite: does the claim still stand? */
  predicate FillStands(e: Entry, p: nat, len: nat, ps: Grid) {
    p !in e.bits && p in e.filling && e.filling[p] == e.writes && Len(e.size, p, ps) == len
  }

  function Unclaim(e: Entry, p: nat): Entry {
    e.(filling := e.filling - {p})
  }

  /** `finishPiece`: drop the claim, and mark when the fill landed and neither
      the generation nor the piece's length moved. */
  function FinishPiece(e: Entry, p: nat, ok: bool, len: nat, hash: Digest, saved: bool, ps: Grid): Entry {
    var u := Unclaim(e, p);
    var m := if ok && p in e.filling && e.filling[p] == e.writes && Len(e.size, p, ps) == len
             then u.(bits := if p < e.nbits then u.bits + {p} else u.bits, hashes := u.hashes[p := hash])
             else u;
    Save(m, saved)
  }

  /** Manifest admission under `file.mu`; `gen` was sampled before the read. */
  predicate ManifestFits(e: Entry, m: Manifest, gen: nat, ps: Grid) {
    && e.writes == gen && e.size == m.size && ps == m.ps
    && (m.identity.Some? && e.id.known ==> SameId(m.identity.value, e.id))
    && !(e.id.known && m.mtimeOld)
  }

  function MergeManifest(e: Entry, m: Manifest, gen: nat, ps: Grid): Entry {
    var f := e.(loading := false);
    if e.writes != gen then f
    else if e.size != m.size || ps != m.ps then f.(manifestSize := Some(e.size))
    else if !ManifestFits(e, m, gen, ps) then f
    else f.(hashes := m.entries + e.hashes, manifestSize := Some(e.size))
  }

  /** The sidecar's marks were taken of a file of this size. */
  predicate Measures(sc: Sidecar, size: nat, ps: Grid) {
    sc.size == size && BytesLen(sc.nbits) == BytesLen(Count(size, ps))
  }

  /** Reload after a restart, against one origin stat: the sidecar is trusted
      only at its recorded size, with a field of the length that size calls for,
      and while its identity is not outdated. */
  predicate Trusted(sc: Sidecar, size: nat, id: OriginId, ps: Grid) {
    Measures(sc, size, ps) && !ContentChanged(sc.id, id)
  }

  function LoadBits(sc: Option<Sidecar>, size: nat, id: OriginId, ps: Grid): set<nat> {
    if sc.Some? && Trusted(sc.value, size, id, ps) then (set p | p in sc.value.bits && p < Count(size, ps)) else {}
  }

  const UNKNOWN := OriginId(0, 0, 0, false)

  /** The identity that comes with the marks of a sidecar of this size. */
  function LoadId(sc: Option<Sidecar>, size: nat, ps: Grid): OriginId {
    if sc.Some? && Measures(sc.value, size, ps) then sc.value.id else UNKNOWN
  }

  /** The origin stat an entry is built against, and how the writes that follow it
      go: the wipe of a discarded sidecar, and the cut and the save of a reconcile. */
  datatype Look = Look(size: nat, id: OriginId, wiped: bool, cut: bool, saved: bool)

  /** The entry as `loadBits` leaves it. A sidecar that was there but is not trusted
      is wiped on disk as well, best-effort. */
  function Built(sc: Option<Sidecar>, cache: Extent, l: Look, storage: nat, ps: Grid): Entry {
    var e := Entry(l.size, Count(l.size, ps), LoadBits(sc, l.size, l.id, ps), storage, cache, map[], 0, map[],
        LoadId(sc, l.size, ps), None, false, sc);
    Save(e, l.wiped && sc.Some? && !Trusted(sc.value, l.size, l.id, ps))
  }

  /** The entry a process builds from disk: what was loaded, brought in line with
      the stat. A trusted sidecar keeps its own identity. */
  function Opened(sc: Option<Sidecar>, cache: Extent, l: Look, storage: nat, ps: Grid): Entry {
    Reconcile(Built(sc, cache, l, storage, ps), l.size, l.id, false, l.cut, l.saved, ps)
  }

  /** The identity it ends with: the sidecar's if that has one and the stat shows
      nothing newer, the stat's otherwise. */
  function OpenedId(sc: Option<Sidecar>, l: Look, ps: Grid): OriginId {
    var had := LoadId(sc, l.size, ps);
    if had.known && !ContentChanged(had, l.id) then had else if l.id.known then l.id else had
  }

  lemma OpenedIs(sc: Option<Sidecar>, cache: Extent, l: Look, storage: nat, ps: Grid)
    ensures var e := Opened(sc, cache, l, storage, ps);
      && e.size == l.size && e.bits == LoadBits(sc, l.size, l.id, ps) && e.nbits == Count(l.size, ps)
      && e.id == OpenedId(sc, l, ps) && e.hashes == map[] && e.filling == map[] && !e.loading
      && (e.bits != {} ==> e.cache == cache)
  {
  }

  /** What building an entry leaves on disk: a sidecar of another size goes if the wipe
      works; one of this size stays, or loses its marks, or is saved anew. */
  lemma OpenedSidecar(sc: Option<Sidecar>, cache: Extent, l: Look, storage: nat, ps: Grid)
    ensures var e := Opened(sc, cache, l, storage, ps);
      if sc.Some? && !Measures(sc.value, l.size, ps) then
        e.sidecar == if l.wiped then Some(Sidecar(l.size, Count(l.size, ps), {}, UNKNOWN)) else sc
      else
        || e.sidecar == sc
        || (sc.Some? && e.sidecar == Some(Sidecar(l.size, Count(l.size, ps), {}, sc.value.id)))
        || e.sidecar == Some(Sidecar(l.size, Count(l.size, ps), e.bits, e.id))
  {
  }

  /** A node's own write is no foreign rewrite: once its stat is noted, a later open
      that still sees that stat finds nothing to wipe. */
  lemma NotedStatIsNoNews(e: Entry, id: OriginId, busy: bool, cut: bool, saved: bool, ps: Grid)
    ensures var n := NoteId(e, id); Reconcile(n, e.size, id, busy, cut, saved, ps) == n
    ensures e.id.known && e.id.ino == id.ino ==> !ContentChanged(NoteId(e, id).id, e.id)
  {
  }

  /** Why an unknown identity is adopted: the next rewrite at the same size is seen
      with it, and not without it; the adoption itself drops no mark. */
  lemma AdoptedIdSeesRewrite(e: Entry, id: OriginId, later: OriginId, busy: bool, cut: bool, saved: bool, ps: Grid)
    requires !e.id.known && ContentChanged(id, later)
    ensures AdoptId(e, id, saved).bits == e.bits
    ensures Reconcile(AdoptId(e, id, saved), e.size, later, busy, cut, saved, ps).bits == {}
    ensures Reconcile(e, e.size, later, busy, cut, saved, ps).bits == e.bits
  {
  }
}
