/** The inductive invariant of the cache protocol. Each clause names only the
    fields it depends on. */
module ProtocolInv {
  import opened Pieces
  import opened Entries
  import opened Protocol

  predicate AtOrigin(o: Origin, i: nat, b: Byte) { i < |o.bytes| && o.bytes[i] == b }

  /** Outside the bytes in flux, `x` holds the origin's. */
  ghost predicate Agrees(x: Extent, o: Origin) {
    forall i {:trigger x[i]} {:trigger i in x} :: i in x && !InFlux(o, i) ==> AtOrigin(o, i, x[i])
  }

  /** An empty field saved without an identity. */
  predicate Blank(sc: Sidecar) { sc.bits == {} && !sc.id.known }

  predicate Ids(o: Origin, sidecar: Option<Sidecar>) {
    && KnownId(o.seen, o.oid)
    && (sidecar.Some? ==>
          || Blank(sidecar.value)
          || (KnownId(sidecar.value.id, o.oid) && (sidecar.value.id == o.oid ==> o.seen == o.oid)))
    && (o.mut.Write? && OwnSample(o.mut.phase).Some? ==> !ContentChanged(o.seen, OwnSample(o.mut.phase).value))
  }

  ghost predicate Geometry(ps: Grid, size: nat, nbits: nat, bits: set<nat>, hashes: map<nat, Digest>) {
    && nbits <= MAX_PIECES
    && (forall p :: p in bits ==> p < nbits && Offset(p, ps) < size)
    && (forall p :: p in hashes ==> p < MAX_PIECES && Offset(p, ps) < size)
    && (forall p :: p in hashes ==> hashes[p].of.Keys == PieceBytes(p, size, ps))
  }

  predicate Sizes(size: nat, o: Origin) {
    && (size <= |o.bytes| || (Reshaped(o.mut) && o.seen != o.oid))
    && (o.mut.Trunc? && o.mut.landed ==> |o.bytes| == o.mut.size)
    && (o.mut.Write? ==> o.mut.data != [])
    && (o.mut.Write? && o.mut.phase.Sized? ==> o.mut.off + |o.mut.data| <= size)
    && (o.seen == o.oid ==> size == |o.bytes|)
  }

  /** The origin holds all of a landed write. */
  ghost predicate HasLanded(o: Origin) {
    (o.mut.Write? && !o.mut.phase.Issued? && !o.mut.phase.Torn?) ==>
      && o.mut.off + |o.mut.data| <= |o.bytes|
      && (forall i: nat {:trigger InRange(o.mut.off, |o.mut.data|, i)} :: InRange(o.mut.off, |o.mut.data|, i) ==>
            AtOrigin(o, i, o.mut.data[i - o.mut.off]))
  }

  /** Marks never name a hole, and outside the bytes in flux they are honest. */
  ghost predicate Honest(ps: Grid, size: nat, bits: set<nat>, cache: Extent, o: Origin) {
    forall i: nat {:trigger PieceOf(i, ps)} :: i < size && PieceOf(i, ps) in bits ==>
      i in cache && (InFlux(o, i) || AtOrigin(o, i, cache[i]))
  }

  ghost predicate Trust(hashes: map<nat, Digest>, o: Origin) {
    forall p :: p in hashes ==> Agrees(hashes[p].of, o)
  }

  /** Bytes a copy may already have written while its marks wait. */
  predicate Patched(m: Mutation, copying: bool, i: nat) { copying && InFlight(m, i) }

  /** A marked piece with a digest has the bytes the digest was taken of. */
  ghost predicate Coherent(hashes: map<nat, Digest>, bits: set<nat>, cache: Extent, o: Origin, copying: bool) {
    forall p, i {:trigger i in hashes[p].of} :: p in hashes && p in bits && i in hashes[p].of ==>
      i in cache && (cache[i] == hashes[p].of[i] || (Patched(o.mut, copying, i) && AtOrigin(o, i, cache[i])))
  }

  ghost predicate FillOk(ps: Grid, p: nat, f: Fill, gen: nat, writes: nat, size: nat, bits: set<nat>, o: Origin) {
    && gen <= writes
    && p < MAX_PIECES && f.len > 0
    && (p in bits ==> gen < writes)
    && (f.buf.Some? ==> f.buf.value.Keys == FillBytes(f, p, ps))
    && (f.want.Some? ==> forall i {:trigger i in f.want.value.of} :: i in f.want.value.of ==> PieceOf(i, ps) == p)
    && (gen == writes ==>
          && Offset(p, ps) + f.len <= size
          && (f.buf.Some? ==> Agrees(f.buf.value, o))
          && (f.want.Some? ==> Agrees(f.want.value.of, o) && forall i {:trigger i in f.want.value.of} ::
                                  i in f.want.value.of ==> i < size))
  }

  ghost predicate Fills(ps: Grid, fills: map<nat, Fill>, filling: map<nat, nat>, writes: nat, size: nat,
                        bits: set<nat>, o: Origin) {
    && fills.Keys == filling.Keys
    && forall p :: p in fills ==> FillOk(ps, p, fills[p], filling[p], writes, size, bits, o)
  }

  ghost predicate Readers(readers: map<nat, Reader>, cache: Extent, o: Origin) {
    forall r, i {:trigger i in readers[r].clean} :: r in readers && i in readers[r].clean ==>
      i in cache && AtOrigin(o, i, cache[i]) && !InFlux(o, i)
  }

  ghost predicate LandingOk(p: nat, buf: Extent, written: bool, good: set<nat>, stands: bool, bits: set<nat>,
                            cache: Extent, readers: map<nat, Reader>, o: Origin) {
    && p !in bits && good <= buf.Keys
    && (forall i {:trigger i in good} :: i in good ==> AtOrigin(o, i, buf[i]))
    && (forall i {:trigger i in buf} :: i in buf && i !in good ==>
          (InFlux(o, i) || o.seen != o.oid) && (stands ==> InFlux(o, i)))
    && (forall i, r {:trigger i in readers[r].clean} :: i in buf && i !in good && r in readers ==>
          i !in readers[r].clean)
    && (written ==> forall i {:trigger i in buf} :: i in buf ==> i in cache && cache[i] == buf[i])
  }

  ghost predicate PunchOk(p: nat, ps: Grid, e: Entry, o: Origin) {
    && p !in e.bits && p !in e.filling && p < e.nbits && Offset(p, ps) < e.size
    && e.sidecar == Some(Sidecar(e.size, e.nbits, e.bits, e.id))
    && (forall i: nat {:trigger PieceOf(i, ps)} :: i < e.size && PieceOf(i, ps) == p ==>
          i in e.cache && (InFlux(o, i) || AtOrigin(o, i, e.cache[i])))
    && (p in e.hashes ==> forall i {:trigger i in e.hashes[p].of} :: i in e.hashes[p].of ==>
          i in e.cache && e.cache[i] == e.hashes[p].of[i])
  }

  ghost predicate CopyingOk(copied: bool, cache: Extent, o: Origin) {
    && o.mut.Write? && o.mut.phase.Sized?
    && (copied ==> forall i: nat {:trigger InRange(o.mut.off, |o.mut.data|, i)} ::
          InRange(o.mut.off, |o.mut.data|, i) ==> i in cache && AtOrigin(o, i, cache[i]))
  }

  ghost predicate Locked(w: World) {
    match w.lock
    case Free => true
    case Copying(copied) => CopyingOk(copied, w.e.cache, OriginOf(w))
    case Landing(p, buf, written, good) =>
      && p in w.fills && p in w.e.filling && w.fills[p].buf == Some(buf)
      && LandingOk(p, buf, written, good, w.e.filling[p] == w.e.writes, w.e.bits, w.e.cache, w.readers, OriginOf(w))
    case Punch(p) => w.readers == map[] && PunchOk(p, w.ps, w.e, OriginOf(w))
  }

  /** One manifest load at a time, and the claim is exactly its life. */
  ghost predicate Loads(loading: bool, loads: map<nat, nat>) {
    && (loading <==> loads != map[])
    && (forall t, u :: t in loads && u in loads ==> t == u)
  }

  /** Would the next process trust the persisted marks? */
  predicate Loadable(sidecar: Option<Sidecar>, ps: Grid, o: Origin) {
    && sidecar.Some? && sidecar.value.size == |o.bytes| && sidecar.value.id == o.oid
    && BytesLen(sidecar.value.nbits) == BytesLen(Count(|o.bytes|, ps))
  }

  /** It would be right to, but for the bytes the last save exposed. */
  ghost predicate CrashSafe(ps: Grid, sidecar: Option<Sidecar>, cache: Extent, exposed: set<nat>, o: Origin) {
    Loadable(sidecar, ps, o) ==>
      forall i: nat {:trigger PieceOf(i, ps)} ::
        i < sidecar.value.size && PieceOf(i, ps) in sidecar.value.bits && PieceOf(i, ps) < MAX_PIECES &&
        i !in exposed ==>
        i in cache && AtOrigin(o, i, cache[i]) && !InFlux(o, i)
  }

  ghost predicate Shape(w: World) {
    && Ids(OriginOf(w), w.e.sidecar)
    && Geometry(w.ps, w.e.size, w.e.nbits, w.e.bits, w.e.hashes)
    && Sizes(w.e.size, OriginOf(w))
    && HasLanded(OriginOf(w))
    && Loads(w.e.loading, w.loads)
  }

  ghost predicate Bytes(w: World) {
    && Honest(w.ps, w.e.size, w.e.bits, w.e.cache, OriginOf(w))
    && Readers(w.readers, w.e.cache, OriginOf(w))
    && CrashSafe(w.ps, w.e.sidecar, w.e.cache, w.exposed, OriginOf(w))
  }

  ghost predicate Claims(w: World) {
    && Trust(w.e.hashes, OriginOf(w))
    && Coherent(w.e.hashes, w.e.bits, w.e.cache, OriginOf(w), w.lock.Copying?)
    && Fills(w.ps, w.fills, w.e.filling, w.e.writes, w.e.size, w.e.bits, OriginOf(w))
  }

  /** Every manifest on the origin is in order. */
  ghost predicate Published(published: set<Manifest>, bytes: seq<Byte>, oid: OriginId) {
    forall m :: m in published ==> PublishedOk(m, bytes, oid)
  }

  ghost predicate Inv(w: World) {
    Shape(w) && Bytes(w) && Claims(w) && Locked(w) && Published(w.published, w.origin, w.oid)
  }

  lemma InitInv(w: World)
    requires Init(w)
    ensures Inv(w)
  {
  }
}
