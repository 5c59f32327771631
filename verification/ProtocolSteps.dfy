/** Every action of the cache protocol keeps its invariant. Steps with the same
    effect on marks, digests and bytes share one lemma about that effect. */
module ProtocolSteps {
  import opened Pieces
  import opened Entries
  import opened Protocol
  import opened ProtocolInv

  /* ---- wipes ---- */

  /** A wipe, as far as the rest of the world sees it. */
  predicate Wiped(e: Entry, f: Entry) {
    && f.bits == {} && f.hashes == map[] && f.nbits <= MAX_PIECES
    && f.writes == e.writes + 1 && f.filling == e.filling && f.loading == e.loading
    && (f.cache == e.cache || f.cache == Cut(e.cache, f.size))
    && (f.sidecar == e.sidecar ||
        (f.sidecar.Some? && f.sidecar.value.bits == {} && f.sidecar.value.id in {e.id, f.id}))
  }

  predicate SameElsewhere(w: World, v: World) {
    && v.ps == w.ps && v.origin == w.origin && v.oid == w.oid && v.lock == w.lock
    && v.fills == w.fills && v.readers == w.readers && v.loads == w.loads && v.published == w.published
  }

  /** A stat or a truncate wipes the entry. */
  ghost predicate WipeStep(w: World, v: World) { WipeEffect(w, v) && WipeMutation(w, v) }

  ghost predicate WipeEffect(w: World, v: World) {
    && w.lock.Free? && SameElsewhere(w, v) && Wiped(w.e, v.e)
    && (w.readers != map[] ==> v.e.cache == w.e.cache)
    && v.exposed == (if v.e.sidecar != w.e.sidecar then Stains(v.e.sidecar, v.ps, OriginOf(v)) else w.exposed)
  }

  predicate WipeMutation(w: World, v: World) {
    && (v.mut == w.mut
       || (w.mut.Write? && w.mut.phase.Landed? && v.mut.Write? && v.mut == w.mut.(phase := v.mut.phase) &&
           (v.mut.phase.Observed? || v.mut.phase == Sized(v.e.id != w.e.id, None)))
       || (w.mut.Write? && w.mut.phase.Landed? && v.mut.Idle? && v.e.id == w.e.id && v.e.size == w.e.size)
       || (w.mut.Trunc? && w.mut.landed && v.mut.Idle? && v.e.size == |w.origin| && v.e.id == w.e.id))
  }

  /** What the wiped entry has to agree with. */
  ghost predicate WipeLands(w: World, v: World) {
    && KnownId(v.e.id, w.oid)
    && (if v.e.id == w.oid then v.e.size == |w.origin|
        else v.e.size <= |w.origin| || Reshaped(v.mut))
    && (v.mut.Write? && v.mut.phase.Sized? ==> v.mut.off + |v.mut.data| <= v.e.size)
    && (v.mut.Write? && OwnSample(v.mut.phase).Some? ==> !ContentChanged(v.e.id, OwnSample(v.mut.phase).value))
    && (v.e.sidecar.Some? && v.e.sidecar.value.id == w.oid ==> v.e.id == w.oid)
    && (forall r, i {:trigger i in w.readers[r].clean} :: r in w.readers && i in w.readers[r].clean ==>
          !InFlux(OriginOf(v), i))
  }

  lemma WipeShape(w: World, v: World)
    requires Shape(w) && WipeStep(w, v) && WipeLands(w, v)
    ensures Shape(v)
  {
  }

  lemma WipeBytes(w: World, v: World)
    requires Shape(w) && Bytes(w) && WipeStep(w, v) && WipeLands(w, v)
    ensures Bytes(v)
  {
  }

  lemma WipeClaims(w: World, v: World)
    requires Claims(w) && WipeStep(w, v)
    ensures Claims(v) && Locked(v)
  {
  }

  /** A wipe keeps the invariant exactly when it lands where it may. */
  lemma WipeKeeps(w: World, v: World)
    requires Inv(w) && WipeStep(w, v)
    ensures Inv(v) <==> WipeLands(w, v)
  {
    if WipeLands(w, v) {
      WipeShape(w, v);
      WipeBytes(w, v);
      WipeClaims(w, v);
    } else if Inv(v) {
      InvLands(w, v);
    }
  }

  lemma InvLands(w: World, v: World)
    requires WipeStep(w, v) && Shape(v) && Bytes(v)
    ensures WipeLands(w, v)
  {
    assert Ids(OriginOf(v), v.e.sidecar) && Sizes(v.e.size, OriginOf(v));
    forall r, i | r in w.readers && i in w.readers[r].clean ensures !InFlux(OriginOf(v), i) {
      assert i in v.readers[r].clean;
    }
  }

  lemma ReconcileWipes(w: World, size: nat, id: OriginId, cut: bool, saved: bool)
    requires Shape(w) && (Busy(w) ==> !cut) && !NoNews(w, size, id)
    ensures var f := Reconcile(w.e, size, id, Busy(w), cut, saved, w.ps);
      && Wiped(w.e, f) && f.size == size && f.id == (if id.known then id else w.e.id)
      && (w.readers != map[] ==> f.cache == w.e.cache)
      && (if saved then f.sidecar.Some? && f.sidecar.value.id == f.id else f.sidecar == w.e.sidecar)
  {
  }

  lemma StatStep(w: World, size: nat, id: OriginId, cut: bool, saved: bool)
    requires Shape(w) && CanStat(w, cut)
    ensures var v := DoStat(w, size, id, cut, saved);
      if NoNews(w, size, id) then v == w
      else
        && WipeStep(w, v) && v.mut == w.mut && v.e.size == size && v.e.id == (if id.known then id else w.e.id)
        && (if saved then v.e.sidecar.Some? && v.e.sidecar.value.id == v.e.id else v.e.sidecar == w.e.sidecar)
  {
    if !NoNews(w, size, id) {
      ReconcileWipes(w, size, id, cut, saved);
    }
  }

  /** Only going back puts bytes in flux again. */
  lemma FluxComesBack(o: Origin, id: OriginId, i: nat)
    requires InFlux(o.(seen := id), i) && !InFlux(o, i)
    ensures o.seen == o.oid && id != o.oid
  {
  }

  lemma ReadersLand(w: World, id: OriginId)
    requires Bytes(w) && !(w.e.id == w.oid && id != w.oid)
    ensures forall r, i {:trigger i in w.readers[r].clean} :: r in w.readers && i in w.readers[r].clean ==>
              !InFlux(OriginOf(w).(seen := id), i)
  {
    forall r, i | r in w.readers && i in w.readers[r].clean
      ensures !InFlux(OriginOf(w).(seen := id), i)
    {
      if InFlux(OriginOf(w).(seen := id), i) {
        FluxComesBack(OriginOf(w), id, i);
      }
    }
  }

  lemma WipeFitsLands(w: World, v: World, size: nat, id: OriginId, saved: bool)
    requires Shape(w) && Bytes(w) && WipeStep(w, v) && v.mut == w.mut && v.e.size == size && v.e.id == id
    requires if saved then v.e.sidecar.Some? && v.e.sidecar.value.id == v.e.id else v.e.sidecar == w.e.sidecar
    ensures WipeLands(w, v) <==> WipeFits(w, size, id, saved)
  {
    assert OriginOf(v) == OriginOf(w).(seen := id);
    if !(w.e.id == w.oid && id != w.oid) {
      ReadersLand(w, id);
    }
  }

  /** One origin stat, whatever it shows and however late it is applied. */
  lemma KeepStat(w: World, size: nat, id: OriginId, cut: bool, saved: bool)
    requires Inv(w) && CanStat(w, cut)
    ensures Inv(DoStat(w, size, id, cut, saved)) <==> StatFits(w, size, id, saved)
  {
    var v := DoStat(w, size, id, cut, saved);
    StatStep(w, size, id, cut, saved);
    if !NoNews(w, size, id) {
      WipeKeeps(w, v);
      WipeFitsLands(w, v, size, v.e.id, saved);
    }
  }

  lemma TruncateWipes(w: World, resized: bool, cut: bool, saved: bool)
    requires Shape(w) && CanTruncApply(w, cut) && w.e.size != w.mut.size
    ensures var f := Truncate(w.e, w.mut.size, Busy(w), resized, cut, saved, w.ps);
            Wiped(w.e, f) && f.size == |w.origin| && f.id == w.e.id && (w.readers != map[] ==> f.cache == w.e.cache)
  {
  }

  lemma TruncApplyStep(w: World, resized: bool, cut: bool, saved: bool)
    requires Shape(w) && CanTruncApply(w, cut)
    ensures var v := DoTruncApply(w, resized, cut, saved);
            if w.e.size == w.mut.size then TruncNoOp(w, v, cut) else WipeStep(w, v)
  {
    if w.e.size != w.mut.size {
      TruncateWipes(w, resized, cut, saved);
    }
  }

  lemma KeepTruncApply(w: World, resized: bool, cut: bool, saved: bool)
    requires Inv(w) && CanTruncApply(w, cut)
    ensures Inv(DoTruncApply(w, resized, cut, saved))
  {
    var v := DoTruncApply(w, resized, cut, saved);
    TruncApplyStep(w, resized, cut, saved);
    if w.e.size != w.mut.size {
      ReadersLand(w, w.e.id);
      WipeKeeps(w, v);
    } else {
      TruncNoOpRest(w, v, cut);
      TruncNoOpFills(w, v, cut);
    }
  }

  /** A truncate to the size already recorded: nothing below it moved. */
  ghost predicate TruncNoOp(w: World, v: World, cut: bool) {
    && w.mut.Trunc? && w.mut.landed && w.lock.Free? && w.e.size == w.mut.size
    && v == w.(mut := Idle, e := CutCache(w.e, w.e.size, cut)) && (w.readers != map[] ==> !cut)
  }

  lemma TruncNoOpRest(w: World, v: World, cut: bool)
    requires Inv(w) && TruncNoOp(w, v, cut)
    ensures Shape(v) && Bytes(v) && Trust(v.e.hashes, OriginOf(v))
    ensures Coherent(v.e.hashes, v.e.bits, v.e.cache, OriginOf(v), v.lock.Copying?)
  {
  }

  lemma TruncNoOpFills(w: World, v: World, cut: bool)
    requires Inv(w) && TruncNoOp(w, v, cut)
    ensures Fills(v.ps, v.fills, v.e.filling, v.e.writes, v.e.size, v.e.bits, OriginOf(v))
  {
    forall p | p in v.fills
      ensures FillOk(v.ps, p, v.fills[p], v.e.filling[p], v.e.writes, v.e.size, v.e.bits, OriginOf(v))
    {
      assert FillOk(w.ps, p, w.fills[p], w.e.filling[p], w.e.writes, w.e.size, w.e.bits, OriginOf(w));
    }
  }

  /* ---- cache bytes gained under content_mu ---- */

  /** A pwrite adds bytes; each is the origin's, or lies where nobody trusts. */
  ghost predicate Gains(w: World, now: Extent) {
    && w.e.cache.Keys <= now.Keys
    && forall i {:trigger i in now} :: i in now ==>
         || (i in w.e.cache && now[i] == w.e.cache[i])
         || AtOrigin(OriginOf(w), i, now[i])
         || (PieceOf(i, w.ps) !in w.e.bits && (Dirty(w, i) || w.e.id != w.oid) &&
             forall r :: r in w.readers ==> i !in w.readers[r].clean)
  }

  lemma GainKeepsBytes(w: World, v: World)
    requires Shape(w) && Bytes(w) && Gains(w, v.e.cache)
    requires v == w.(e := w.e.(cache := v.e.cache), lock := v.lock)
    ensures Bytes(v)
  {
    forall r, i | r in v.readers && i in v.readers[r].clean
      ensures i in v.e.cache && AtOrigin(OriginOf(v), i, v.e.cache[i])
    {
      assert i in w.readers[r].clean;
    }
  }

  lemma CopyPwriteGains(w: World, keep: set<nat>)
    requires Shape(w) && CanCopyPwrite(w)
    ensures Gains(w, DoCopyPwrite(w, keep).e.cache)
  {
    var now := DoCopyPwrite(w, keep).e.cache;
    forall i | i in now && !(i in w.e.cache && now[i] == w.e.cache[i])
      ensures AtOrigin(OriginOf(w), i, now[i])
    {
      assert InRange(w.mut.off, |w.mut.data|, i);
    }
  }

  lemma ExtendLands(cache: Extent, off: nat, data: seq<Byte>, keep: set<nat>, i: nat)
    requires InRange(off, |data|, i) && Extend(off, data).Keys <= keep
    ensures i in cache + Restrict(Extend(off, data), keep)
    ensures (cache + Restrict(Extend(off, data), keep))[i] == data[i - off]
  {
  }

  lemma LandedByte(w: World, i: nat)
    requires HasLanded(OriginOf(w)) && w.mut.Write? && w.mut.phase.Sized?
    requires InRange(w.mut.off, |w.mut.data|, i)
    ensures AtOrigin(OriginOf(w), i, w.mut.data[i - w.mut.off])
  {
  }

  lemma CopyPwriteByte(w: World, keep: set<nat>, i: nat)
    requires CanCopyPwrite(w) && !Busy(w)
    requires Extend(w.mut.off, w.mut.data).Keys <= keep && InRange(w.mut.off, |w.mut.data|, i)
    ensures i in DoCopyPwrite(w, keep).e.cache
    ensures DoCopyPwrite(w, keep).e.cache[i] == w.mut.data[i - w.mut.off]
  {
    ExtendLands(w.e.cache, w.mut.off, w.mut.data, keep, i);
  }

  lemma CopyPwriteLands(w: World, keep: set<nat>, i: nat)
    requires HasLanded(OriginOf(w)) && CanCopyPwrite(w) && !Busy(w)
    requires Extend(w.mut.off, w.mut.data).Keys <= keep && InRange(w.mut.off, |w.mut.data|, i)
    ensures i in DoCopyPwrite(w, keep).e.cache && AtOrigin(OriginOf(w), i, DoCopyPwrite(w, keep).e.cache[i])
  {
    LandedByte(w, i);
    CopyPwriteByte(w, keep, i);
  }

  lemma CopyPwriteLocked(w: World, keep: set<nat>)
    requires HasLanded(OriginOf(w)) && CanCopyPwrite(w)
    ensures Locked(DoCopyPwrite(w, keep))
  {
    var v := DoCopyPwrite(w, keep);
    if v.lock.copied {
      forall i: nat | InRange(w.mut.off, |w.mut.data|, i)
        ensures i in v.e.cache && AtOrigin(OriginOf(v), i, v.e.cache[i])
      {
        CopyPwriteLands(w, keep, i);
      }
    }
  }

  lemma CopyPwriteClaims(w: World, keep: set<nat>)
    requires Inv(w) && CanCopyPwrite(w)
    ensures Claims(DoCopyPwrite(w, keep))
  {
    var v := DoCopyPwrite(w, keep);
    CopyPwriteGains(w, keep);
    forall p, i | p in v.e.hashes && p in v.e.bits && i in v.e.hashes[p].of
      ensures i in v.e.cache && (v.e.cache[i] == v.e.hashes[p].of[i] ||
                (Patched(v.mut, true, i) && AtOrigin(OriginOf(v), i, v.e.cache[i])))
    {
      assert i in w.e.hashes[p].of;
      if InRange(w.mut.off, |w.mut.data|, i) {}
    }
  }

  lemma KeepCopyPwrite(w: World, keep: set<nat>)
    requires Inv(w) && CanCopyPwrite(w)
    ensures Inv(DoCopyPwrite(w, keep))
  {
    CopyPwriteGains(w, keep);
    GainKeepsBytes(w, DoCopyPwrite(w, keep));
    CopyPwriteLocked(w, keep);
    CopyPwriteClaims(w, keep);
  }

  lemma FillPwriteGains(w: World, keep: set<nat>)
    requires Inv(w) && CanFillPwrite(w)
    ensures Gains(w, DoFillPwrite(w, keep).e.cache)
  {
    var now := DoFillPwrite(w, keep).e.cache;
    forall i | i in now && !(i in w.e.cache && now[i] == w.e.cache[i]) && !AtOrigin(OriginOf(w), i, now[i])
      ensures PieceOf(i, w.ps) !in w.e.bits && (Dirty(w, i) || w.e.id != w.oid)
      ensures forall r :: r in w.readers ==> i !in w.readers[r].clean
    {
      assert i in w.lock.buf && i !in w.lock.good;
    }
  }

  lemma KeepFillPwrite(w: World, keep: set<nat>)
    requires Inv(w) && CanFillPwrite(w)
    ensures Inv(DoFillPwrite(w, keep))
  {
    FillPwriteGains(w, keep);
    GainKeepsBytes(w, DoFillPwrite(w, keep));
    FillPwriteRest(w, keep);
  }

  lemma FillPwriteRest(w: World, keep: set<nat>)
    requires Inv(w) && CanFillPwrite(w)
    ensures Shape(DoFillPwrite(w, keep)) && Claims(DoFillPwrite(w, keep)) && Locked(DoFillPwrite(w, keep))
  {
  }

  /* ---- growing the recorded size ---- */

  /** A grow, as far as the marks and digests are concerned: what survives
      names only bytes the entry already held. */
  ghost predicate Grown(e: Entry, f: Entry, ps: Grid) {
    && e.size <= f.size && f.nbits <= MAX_PIECES && f.bits <= e.bits
    && (forall p :: p in f.bits ==> p < f.nbits)
    && (forall i: nat {:trigger PieceOf(i, ps)} :: i < f.size && PieceOf(i, ps) in f.bits ==> i < e.size)
    && (forall p :: p in f.hashes ==>
          p in e.hashes && f.hashes[p] == e.hashes[p] && PieceBytes(p, f.size, ps) == PieceBytes(p, e.size, ps))
    && f.cache == e.cache && f.writes == e.writes && f.filling == e.filling && f.loading == e.loading
    && f.id == e.id
    && (f.sidecar == e.sidecar || f.sidecar == Some(Sidecar(e.size, e.nbits, f.bits, e.id)))
  }

  lemma WideningIsShortPiece(size: nat, p: nat, ps: Grid)
    requires p < MAX_PIECES && Offset(p, ps) < size && WideningPiece(size, ps) != Some(p)
    ensures forall i: nat {:trigger PieceOf(i, ps)} :: PieceOf(i, ps) == p ==> i < size
  {
    if size % ps != 0 {
      PieceRange(size, PieceOf(size, ps), ps);
      OffsetSteps(PieceOf(size, ps), p, ps);
    }
    GrowKeepsFullPieces(size, p, ps);
  }

  lemma GrowKeepsPiece(e: Entry, end: nat, p: nat, ps: Grid)
    requires Geometry(ps, e.size, e.nbits, e.bits, e.hashes) && e.size < end
    requires (p in e.bits || p in e.hashes) && p < MAX_PIECES && WideningPiece(e.size, ps) != Some(p)
    ensures p < Count(end, ps)
    ensures forall i: nat {:trigger PieceOf(i, ps)} :: PieceOf(i, ps) == p ==> i < e.size
    ensures PieceBytes(p, end, ps) == PieceBytes(p, e.size, ps)
  {
    WideningIsShortPiece(e.size, p, ps);
    DivCeilBound(end, p, ps);
  }

  lemma GrowIsGrown(e: Entry, end: nat, deferred: bool, saved: bool, ps: Grid)
    requires Geometry(ps, e.size, e.nbits, e.bits, e.hashes)
    ensures Grown(e, GrowTo(e, end, deferred, saved, ps), ps)
    ensures GrowTo(e, end, deferred, saved, ps).size == if end <= e.size then e.size else end
  {
    var d, f := DropWidening(e, saved, ps), GrowTo(e, end, deferred, saved, ps);
    if e.size < end {
      DropWideningDrops(e, saved, ps);
      forall p | p in d.bits || p in d.hashes
        ensures p < Count(end, ps)
        ensures forall i: nat {:trigger PieceOf(i, ps)} :: PieceOf(i, ps) == p ==> i < e.size
        ensures PieceBytes(p, end, ps) == PieceBytes(p, e.size, ps)
      {
        GrowKeepsPiece(e, end, p, ps);
      }
      assert f.bits == d.bits;
    }
  }

  lemma DropWideningDrops(e: Entry, saved: bool, ps: Grid)
    requires Geometry(ps, e.size, e.nbits, e.bits, e.hashes)
    ensures var d := DropWidening(e, saved, ps);
      && d.bits <= e.bits && d.hashes.Keys <= e.hashes.Keys
      && (forall p :: p in d.hashes ==> d.hashes[p] == e.hashes[p])
      && (forall p :: p in d.bits || p in d.hashes ==> p < MAX_PIECES && WideningPiece(e.size, ps) != Some(p))
      && (d.sidecar == e.sidecar || d.sidecar == Some(Sidecar(e.size, e.nbits, d.bits, e.id)))
  {
  }

  /** The size step of a landed write, either way it gets there. */
  ghost predicate GrowStep(w: World, v: World) {
    && w.mut.Write? && w.lock.Free? && SameElsewhere(w, v)
    && Grown(w.e, v.e.(id := w.e.id), w.ps) && (v.e.id == w.e.id || ContentChanged(w.e.id, v.e.id))
    && ((w.mut.phase.Landed? && v.mut == w.mut.(phase := Sized(v.e.id != w.e.id, None)))
        || (w.mut.phase.Observed? && v.e.id == w.e.id &&
            v.mut == w.mut.(phase := Sized(false, w.mut.phase.note))))
    && w.mut.off + |w.mut.data| <= v.e.size
    && (v.e.size == w.e.size || v.e.size == w.mut.off + |w.mut.data|)
    && v.exposed == (if v.e.sidecar != w.e.sidecar then Stains(v.e.sidecar, v.ps, OriginOf(v)) else w.exposed)
  }

  /** What the identity it adopts has to agree with. */
  ghost predicate GrowLands(w: World, v: World) {
    && KnownId(v.e.id, w.oid) && (v.e.id == w.oid ==> v.e.size == |w.origin|)
    && (GoesBack(w, v) ==> Elsewhere(v.e.sidecar, w.oid) && NoneBack(w, v.e.id))
  }

  lemma GrowShape(w: World, v: World)
    requires Shape(w) && GrowStep(w, v) && GrowLands(w, v)
    ensures Shape(v)
  {
    forall p | p in v.e.bits ensures Offset(p, w.ps) < v.e.size {
      assert p in w.e.bits;
    }
  }

  predicate GoesBack(w: World, v: World) { w.e.id == w.oid && v.e.id != w.oid }

  /** The bytes in flux stay so; more get there only when the identity goes back. */
  lemma GrowFlux(w: World, v: World)
    requires Shape(w) && GrowStep(w, v)
    ensures forall i {:trigger InFlux(OriginOf(v), i)} :: InFlux(OriginOf(w), i) ==> InFlux(OriginOf(v), i)
    ensures forall i {:trigger InFlux(OriginOf(v), i)} ::
      InFlux(OriginOf(v), i) <==>
      if GoesBack(w, v) then InFlux(OriginOf(w).(seen := v.e.id), i) else InFlux(OriginOf(w), i)
  {
  }

  lemma GrowBytes(w: World, v: World)
    requires Shape(w) && Bytes(w) && GrowStep(w, v) && GrowLands(w, v)
    ensures Bytes(v)
  {
    GrowFlux(w, v);
  }

  lemma GrowClaims(w: World, v: World)
    requires Shape(w) && Claims(w) && GrowStep(w, v) && GrowLands(w, v)
    ensures Claims(v)
  {
    GrowFlux(w, v);
    forall p | p in v.fills
      ensures FillOk(v.ps, p, v.fills[p], v.e.filling[p], v.e.writes, v.e.size, v.e.bits, OriginOf(v))
    {
      assert FillOk(w.ps, p, w.fills[p], w.e.filling[p], w.e.writes, w.e.size, w.e.bits, OriginOf(w));
    }
  }

  lemma InvGrown(w: World, v: World)
    requires Shape(w) && GrowStep(w, v) && Shape(v) && Bytes(v)
    ensures GrowLands(w, v)
  {
    assert Ids(OriginOf(v), v.e.sidecar) && Sizes(v.e.size, OriginOf(v));
    GrowFlux(w, v);
    if GoesBack(w, v) {
      forall r, i | r in w.readers && i in w.readers[r].clean ensures !InFlux(OriginOf(w).(seen := v.e.id), i) {
        assert i in v.readers[r].clean;
      }
    }
  }

  /** A grow keeps the invariant exactly when its identity fits. */
  lemma GrowKeeps(w: World, v: World)
    requires Inv(w) && GrowStep(w, v)
    ensures Inv(v) <==> GrowLands(w, v)
  {
    if GrowLands(w, v) {
      GrowShape(w, v);
      GrowBytes(w, v);
      GrowClaims(w, v);
    } else if Inv(v) {
      InvGrown(w, v);
    }
  }

  lemma OwnGrowStep(w: World, deferred: bool, saved: bool)
    requires Shape(w) && CanOwnGrow(w, deferred)
    ensures GrowStep(w, DoOwnGrow(w, deferred, saved)) && GrowLands(w, DoOwnGrow(w, deferred, saved))
  {
    var end := w.mut.off + |w.mut.data|;
    var g := GrowTo(w.e, end, deferred, saved, w.ps);
    GrowIsGrown(w.e, end, deferred, saved, w.ps);
    ObservedGrow(w, g);
    KeptIdLands(w, DoOwnGrow(w, deferred, saved));
  }

  lemma ObservedGrow(w: World, g: Entry)
    requires w.mut.Write? && w.mut.phase.Observed? && w.lock.Free?
    requires Grown(w.e, g, w.ps)
    requires var end := w.mut.off + |w.mut.data|; g.size == if end <= w.e.size then w.e.size else end
    ensures GrowStep(w, Noted(w, w.(e := g, mut := w.mut.(phase := Sized(false, w.mut.phase.note)))))
  {
  }

  lemma KeptIdLands(w: World, v: World)
    requires Shape(w) && w.mut.Write? && w.mut.phase.Observed?
    requires v.e.id == w.e.id && (v.e.size == w.e.size || w.e.size < v.e.size == w.mut.off + |w.mut.data|)
    ensures GrowLands(w, v)
  {
  }

  lemma KeepOwnGrow(w: World, deferred: bool, saved: bool)
    requires Inv(w) && CanOwnGrow(w, deferred)
    ensures Inv(DoOwnGrow(w, deferred, saved))
  {
    OwnGrowStep(w, deferred, saved);
    GrowKeeps(w, DoOwnGrow(w, deferred, saved));
  }

  /* ---- the look after a write ---- */

  /** At the write's end, from below or on it: a grow, and the newer identity. */
  lemma FillSizeGrows(e: Entry, end: nat, id: OriginId, busy: bool, deferred: bool, cut: bool, saved: bool, ps: Grid)
    requires e.size <= end && e.id.known
    ensures FillSize(e, end, id, busy, deferred, cut, saved, ps) == NoteId(GrowTo(e, end, deferred, saved, ps), id)
    ensures GrowTo(e, end, deferred, saved, ps).id == e.id
  {
  }

  lemma EndStatIs(w: World, f: Entry, id: OriginId, deferred: bool, cut: bool, saved: bool)
    requires w.mut.Write? && f == FillSize(w.e, w.mut.off + |w.mut.data|, id, Busy(w), deferred, cut, saved, w.ps)
    requires !NoMemory(w.e, w.mut.off + |w.mut.data|, Busy(w), deferred)
    ensures DoOwnStat(w, w.mut.off + |w.mut.data|, id, deferred, cut, saved) ==
            Noted(w, w.(e := f, mut := w.mut.(phase := Sized(f.id != w.e.id, None))))
  {
  }

  lemma OwnStatGrows(w: World, id: OriginId, deferred: bool, cut: bool, saved: bool)
    requires Shape(w) && CanOwnStat(w, deferred, cut) && w.e.size <= w.mut.off + |w.mut.data|
    ensures GrowsTo(w, DoOwnStat(w, w.mut.off + |w.mut.data|, id, deferred, cut, saved), id)
  {
    var end := w.mut.off + |w.mut.data|;
    var g := GrowTo(w.e, end, deferred, saved, w.ps);
    FillSizeGrows(w.e, end, id, Busy(w), deferred, cut, saved, w.ps);
    GrowIsGrown(w.e, end, deferred, saved, w.ps);
    EndStatIs(w, NoteId(g, id), id, deferred, cut, saved);
    SizedGrow(w, g, id);
  }

  ghost predicate GrowsTo(w: World, v: World, id: OriginId) {
    GrowStep(w, v) && v.e.id == NoteId(w.e, id).id && v.e.size == w.mut.off + |w.mut.data|
  }

  ghost predicate ShrinksTo(w: World, v: World, id: OriginId) {
    && w.mut.Write? && WipeStep(w, v) && v.e.id == NoteId(w.e, id).id && v.e.size == w.mut.off + |w.mut.data|
    && v.mut == w.mut.(phase := Sized(v.e.id != w.e.id, None))
    && (v.e.sidecar == w.e.sidecar || (v.e.sidecar.Some? && v.e.sidecar.value.id == w.e.id))
  }

  lemma SizedGrow(w: World, g: Entry, id: OriginId)
    requires w.mut.Write? && w.mut.phase.Landed? && w.lock.Free? && w.e.id.known
    requires Grown(w.e, g, w.ps) && g.size == w.mut.off + |w.mut.data|
    ensures var f := NoteId(g, id);
      GrowsTo(w, Noted(w, w.(e := f, mut := w.mut.(phase := Sized(f.id != w.e.id, None)))), id)
  {
  }

  /** ... from above: a wipe, and the newer identity. */
  lemma FillSizeShrinks(e: Entry, end: nat, id: OriginId, busy: bool, deferred: bool, cut: bool, saved: bool, ps: Grid)
    requires end < e.size && !NoMemory(e, end, busy, deferred)
    ensures FillSize(e, end, id, busy, deferred, cut, saved, ps) == NoteId(Wipe(e, end, e.id, busy, cut, saved, ps), id)
  {
  }

  lemma ShrinkWipes(w: World, end: nat, cut: bool, saved: bool)
    requires Shape(w) && (Busy(w) ==> !cut)
    ensures var f := Wipe(w.e, end, w.e.id, Busy(w), cut, saved, w.ps);
      && Wiped(w.e, f) && f.size == end && f.id == w.e.id && (w.readers != map[] ==> f.cache == w.e.cache)
      && (f.sidecar == w.e.sidecar || (f.sidecar.Some? && f.sidecar.value.id == w.e.id))
  {
  }

  lemma SizedEffect(w: World, g: Entry, id: OriginId, m: Mutation)
    requires w.lock.Free? && Wiped(w.e, g) && g.id == w.e.id && (w.readers != map[] ==> g.cache == w.e.cache)
    requires g.sidecar == w.e.sidecar || (g.sidecar.Some? && g.sidecar.value.id == w.e.id)
    ensures WipeEffect(w, Noted(w, w.(e := NoteId(g, id), mut := m)))
  {
  }

  lemma SizedWipe(w: World, g: Entry, id: OriginId)
    requires w.mut.Write? && w.mut.phase.Landed? && w.lock.Free? && w.e.id.known
    requires Wiped(w.e, g) && g.size == w.mut.off + |w.mut.data| && g.id == w.e.id
    requires w.readers != map[] ==> g.cache == w.e.cache
    requires g.sidecar == w.e.sidecar || (g.sidecar.Some? && g.sidecar.value.id == w.e.id)
    ensures var f := NoteId(g, id);
      ShrinksTo(w, Noted(w, w.(e := f, mut := w.mut.(phase := Sized(f.id != w.e.id, None)))), id)
  {
    var f := NoteId(g, id);
    var m := w.mut.(phase := Sized(f.id != w.e.id, None));
    SizedEffect(w, g, id, m);
    NotedFields(w, w.(e := f, mut := m));
    ShrinksFrom(w, Noted(w, w.(e := f, mut := m)), g, id);
  }

  lemma NotedFields(w: World, x: World)
    ensures Noted(w, x).e == x.e && Noted(w, x).mut == x.mut
  {
  }

  lemma ShrinksFrom(w: World, v: World, g: Entry, id: OriginId)
    requires WipeEffect(w, v) && w.mut.Write? && w.mut.phase.Landed? && w.e.id.known
    requires v.e == NoteId(g, id) && v.mut == w.mut.(phase := Sized(v.e.id != w.e.id, None))
    requires g.id == w.e.id && g.size == w.mut.off + |w.mut.data|
    requires g.sidecar == w.e.sidecar || (g.sidecar.Some? && g.sidecar.value.id == w.e.id)
    ensures ShrinksTo(w, v, id)
  {
  }

  lemma OwnStatShrinks(w: World, id: OriginId, deferred: bool, cut: bool, saved: bool)
    requires Shape(w) && CanOwnStat(w, deferred, cut) && w.mut.off + |w.mut.data| < w.e.size
    requires !NoMemory(w.e, w.mut.off + |w.mut.data|, Busy(w), deferred)
    ensures ShrinksTo(w, DoOwnStat(w, w.mut.off + |w.mut.data|, id, deferred, cut, saved), id)
  {
    var end := w.mut.off + |w.mut.data|;
    var g := Wipe(w.e, end, w.e.id, Busy(w), cut, saved, w.ps);
    FillSizeShrinks(w.e, end, id, Busy(w), deferred, cut, saved, w.ps);
    ShrinkWipes(w, end, cut, saved);
    EndStatIs(w, NoteId(g, id), id, deferred, cut, saved);
    SizedWipe(w, g, id);
  }

  lemma ShrinkLands(w: World, v: World, id: OriginId)
    requires Shape(w) && Bytes(w) && w.mut.Write? && w.mut.phase.Landed? && ShrinksTo(w, v, id) && v.e.size < w.e.size
    ensures WipeLands(w, v) <==> GrowLands(w, v)
  {
  }

  /** `getIdentified` after a write, with the identity to note once the copy ended. */
  ghost function Looked(w: World, size: nat, id: OriginId, cut: bool, saved: bool, note: Option<OriginId>): World
    requires w.mut.Write?
  {
    Noted(w, w.(e := Reconcile(w.e, size, id, Busy(w), cut, saved, w.ps), mut := w.mut.(phase := Observed(note))))
  }

  lemma LookedStep(w: World, size: nat, id: OriginId, cut: bool, saved: bool, note: Option<OriginId>)
    requires Shape(w) && CanOwnRetry(w, cut)
    ensures var v := Looked(w, size, id, cut, saved, note);
      if NoNews(w, size, id) then v == w.(mut := w.mut.(phase := Observed(note)))
      else
        && WipeStep(w, v) && v.mut == w.mut.(phase := Observed(note))
        && v.e.size == size && v.e.id == (if id.known then id else w.e.id)
        && (if saved then v.e.sidecar.Some? && v.e.sidecar.value.id == v.e.id else v.e.sidecar == w.e.sidecar)
  {
    if !NoNews(w, size, id) {
      ReconcileWipes(w, size, id, cut, saved);
    }
  }

  lemma ObservedKeeps(w: World, note: Option<OriginId>)
    requires Inv(w) && w.mut.Write? && w.mut.phase.Landed? && w.lock.Free?
    requires note.Some? ==> !ContentChanged(w.e.id, note.value)
    ensures Inv(w.(mut := w.mut.(phase := Observed(note))))
  {
  }

  lemma ReconcileLands(w: World, v: World, size: nat, id: OriginId, saved: bool)
    requires Shape(w) && Bytes(w) && WipeStep(w, v) && w.mut.Write? && w.mut.phase.Landed?
    requires v.mut.Write? && v.mut.phase.Observed? && v.mut == w.mut.(phase := v.mut.phase)
    requires v.mut.phase.note.Some? ==> !ContentChanged(id, v.mut.phase.note.value)
    requires v.e.size == size && v.e.id == id
    requires if saved then v.e.sidecar.Some? && v.e.sidecar.value.id == v.e.id else v.e.sidecar == w.e.sidecar
    ensures WipeLands(w, v) <==> WipeFits(w, size, id, saved)
  {
    forall i ensures InFlux(OriginOf(v), i) == InFlux(OriginOf(w).(seen := id), i) {
    }
    if !(w.e.id == w.oid && id != w.oid) {
      ReadersLand(w, id);
    }
  }

  lemma KeepLooked(w: World, size: nat, id: OriginId, cut: bool, saved: bool, note: Option<OriginId>)
    requires Inv(w) && CanOwnRetry(w, cut) && note in {None, Some(id)}
    ensures Inv(Looked(w, size, id, cut, saved, note)) <==> StatFits(w, size, id, saved)
  {
    var v := Looked(w, size, id, cut, saved, note);
    LookedStep(w, size, id, cut, saved, note);
    if NoNews(w, size, id) {
      ObservedKeeps(w, note);
    } else {
      WipeKeeps(w, v);
      ReconcileLands(w, v, size, v.e.id, saved);
    }
  }

  /** The second look after a write, the first having failed. */
  lemma KeepOwnRetry(w: World, size: nat, id: OriginId, cut: bool, saved: bool)
    requires Inv(w) && CanOwnRetry(w, cut)
    ensures Inv(DoOwnRetry(w, size, id, cut, saved)) <==> StatFits(w, size, id, saved)
  {
    KeepLooked(w, size, id, cut, saved, None);
  }

  /** The look after a write, whatever it shows, through either entry point. */
  lemma KeepOwnStat(w: World, size: nat, id: OriginId, deferred: bool, cut: bool, saved: bool)
    requires Inv(w) && CanOwnStat(w, deferred, cut)
    ensures Inv(DoOwnStat(w, size, id, deferred, cut, saved)) <==> OwnStatFits(w, size, id, deferred, saved)
  {
    if size == w.mut.off + |w.mut.data| {
      KeepEndStat(w, size, id, deferred, cut, saved);
    } else {
      KeepOtherStat(w, size, id, deferred, cut, saved);
    }
  }

  lemma KeepEndStat(w: World, size: nat, id: OriginId, deferred: bool, cut: bool, saved: bool)
    requires Inv(w) && CanOwnStat(w, deferred, cut) && size == w.mut.off + |w.mut.data|
    ensures Inv(DoOwnStat(w, size, id, deferred, cut, saved)) <==> OwnStatFits(w, size, id, deferred, saved)
  {
    if NoMemory(w.e, size, Busy(w), deferred) {
      KeepGivingUp(w, size, id, deferred, cut, saved);
    } else {
      KeepSized(w, id, deferred, cut, saved);
      EndFits(w, id, deferred, cut, saved);
    }
  }

  lemma KeepGivingUp(w: World, size: nat, id: OriginId, deferred: bool, cut: bool, saved: bool)
    requires Inv(w) && CanOwnStat(w, deferred, cut) && size == w.mut.off + |w.mut.data|
    requires NoMemory(w.e, size, Busy(w), deferred)
    ensures Inv(DoOwnStat(w, size, id, deferred, cut, saved)) && OwnStatFits(w, size, id, deferred, saved)
  {
    KeepDropMarks(w, id, deferred, cut, saved);
  }

  lemma KeepSized(w: World, id: OriginId, deferred: bool, cut: bool, saved: bool)
    requires Inv(w) && CanOwnStat(w, deferred, cut) && !NoMemory(w.e, w.mut.off + |w.mut.data|, Busy(w), deferred)
    ensures var v := DoOwnStat(w, w.mut.off + |w.mut.data|, id, deferred, cut, saved);
            Inv(v) <==> GrowLands(w, v)
  {
    var v := DoOwnStat(w, w.mut.off + |w.mut.data|, id, deferred, cut, saved);
    if w.e.size <= w.mut.off + |w.mut.data| {
      OwnStatGrows(w, id, deferred, cut, saved);
      GrowKeeps(w, v);
    } else {
      OwnStatShrinks(w, id, deferred, cut, saved);
      WipeKeeps(w, v);
      ShrinkLands(w, v, id);
    }
  }

  /** The fit of a look at the write's end speaks of the entry it leads to. */
  lemma EndFits(w: World, id: OriginId, deferred: bool, cut: bool, saved: bool)
    requires Shape(w) && CanOwnStat(w, deferred, cut) && !NoMemory(w.e, w.mut.off + |w.mut.data|, Busy(w), deferred)
    ensures var end := w.mut.off + |w.mut.data|;
      OwnStatFits(w, end, id, deferred, saved) <==> GrowLands(w, DoOwnStat(w, end, id, deferred, cut, saved))
  {
    var end := w.mut.off + |w.mut.data|;
    var f := FillSize(w.e, end, id, Busy(w), deferred, cut, saved, w.ps);
    EndStatIs(w, f, id, deferred, cut, saved);
    NotedFields(w, w.(e := f, mut := w.mut.(phase := Sized(f.id != w.e.id, None))));
    FillSizeIs(w.e, end, id, Busy(w), deferred, cut, saved, w.ps);
    FillSizeUncut(w.e, end, id, Busy(w), deferred, cut, saved, w.ps);
  }

  lemma GrowKeepsId(e: Entry, end: nat, deferred: bool, saved: bool, ps: Grid)
    requires e.size <= end
    ensures GrowTo(e, end, deferred, saved, ps).id == e.id && GrowTo(e, end, deferred, saved, ps).size == end
  {
  }

  lemma FillSizeIs(e: Entry, end: nat, id: OriginId, busy: bool, deferred: bool, cut: bool, saved: bool, ps: Grid)
    requires !NoMemory(e, end, busy, deferred) && e.id.known
    ensures var f := FillSize(e, end, id, busy, deferred, cut, saved, ps);
            f.size == end && f.id == NoteId(e, id).id
  {
    if end < e.size {
      FillSizeShrinks(e, end, id, busy, deferred, cut, saved, ps);
    } else {
      FillSizeGrows(e, end, id, busy, deferred, cut, saved, ps);
      GrowKeepsId(e, end, deferred, saved, ps);
    }
  }

  /** What is saved does not depend on the cut. */
  lemma FillSizeUncut(e: Entry, end: nat, id: OriginId, busy: bool, deferred: bool, cut: bool, saved: bool, ps: Grid)
    requires !NoMemory(e, end, busy, deferred) && e.id.known
    ensures FillSize(e, end, id, busy, deferred, cut, saved, ps).sidecar ==
            FillSize(e, end, id, busy, deferred, false, saved, ps).sidecar
  {
    if end < e.size {
      FillSizeShrinks(e, end, id, busy, deferred, cut, saved, ps);
      FillSizeShrinks(e, end, id, busy, deferred, false, saved, ps);
    } else {
      FillSizeGrows(e, end, id, busy, deferred, cut, saved, ps);
      FillSizeGrows(e, end, id, busy, deferred, false, saved, ps);
    }
  }

  /** The shrink found no memory: the marks go and the write returns. */
  lemma DropMarksStep(w: World, id: OriginId, deferred: bool, cut: bool, saved: bool)
    requires Shape(w) && CanOwnStat(w, deferred, cut) && NoMemory(w.e, w.mut.off + |w.mut.data|, Busy(w), deferred)
    ensures var v := DoOwnStat(w, w.mut.off + |w.mut.data|, id, deferred, cut, saved);
      && WipeStep(w, v) && v.mut.Idle? && v.e.size == w.e.size && v.e.id == w.e.id
      && (v.e.sidecar == w.e.sidecar || (v.e.sidecar.Some? && v.e.sidecar.value.id == w.e.id))
  {
    var f := DropMarks(w.e, saved);
    assert FillSize(w.e, w.mut.off + |w.mut.data|, id, Busy(w), deferred, cut, saved, w.ps) == f;
    assert Wiped(w.e, f);
  }

  lemma KeepDropMarks(w: World, id: OriginId, deferred: bool, cut: bool, saved: bool)
    requires Inv(w) && CanOwnStat(w, deferred, cut) && NoMemory(w.e, w.mut.off + |w.mut.data|, Busy(w), deferred)
    ensures Inv(DoOwnStat(w, w.mut.off + |w.mut.data|, id, deferred, cut, saved))
  {
    var v := DoOwnStat(w, w.mut.off + |w.mut.data|, id, deferred, cut, saved);
    DropMarksStep(w, id, deferred, cut, saved);
    WipeKeeps(w, v);
    assert WipeLands(w, v);
  }

  lemma KeepOtherStat(w: World, size: nat, id: OriginId, deferred: bool, cut: bool, saved: bool)
    requires Inv(w) && CanOwnStat(w, deferred, cut) && size != w.mut.off + |w.mut.data|
    ensures Inv(DoOwnStat(w, size, id, deferred, cut, saved)) <==> OwnStatFits(w, size, id, deferred, saved)
  {
    KeepLooked(w, size, id, cut, saved, Some(id));
  }

  /* ---- looks that fit ---- */

  /** Attribute lag: nothing the entry does not know, or a size that went with the
      identity it knows although the object has moved on. */
  predicate LaggingStat(w: World, size: nat, id: OriginId) {
    NoNews(w, size, id) || (size <= |w.origin| && id == w.e.id && id != w.oid)
  }

  /** The write in flight noted no look that the current object would outdate: one at
      another inode, still to be noted by an entry that has not seen this one. */
  predicate NoteFollows(w: World) {
    w.e.id == w.oid || !w.mut.Write? || OwnSample(w.mut.phase).None? ||
    !ContentChanged(w.oid, OwnSample(w.mut.phase).value)
  }

  /** A current look always fits, after a write and at any other time, unless the write
      in flight noted another inode. */
  lemma FreshFits(w: World, deferred: bool, saved: bool)
    requires Inv(w)
    ensures StatFits(w, |w.origin|, w.oid, saved) <==> NoteFollows(w)
    ensures w.mut.Write? && w.mut.phase.Landed? ==> OwnStatFits(w, |w.origin|, w.oid, deferred, saved)
    ensures w.mut.Write? && OwnSample(w.mut.phase).Some? && OwnSample(w.mut.phase).value == w.oid ==> NoteFollows(w)
  {
  }

  /** With nothing in flight a look at the object as it is or was fits exactly when
      it shows no more bytes than there are, and an older one only if the wipe is
      saved or the sidecar on disk does not name the current object. */
  lemma IdleFits(w: World, size: nat, id: OriginId, saved: bool)
    requires Inv(w) && w.mut.Idle? && KnownId(id, w.oid)
    ensures StatFits(w, size, id, saved) <==>
      || NoNews(w, size, id)
      || (id == w.oid && size == |w.origin|)
      || (id != w.oid && size <= |w.origin| && (saved || w.e.sidecar.None? || w.e.sidecar.value.id != w.oid))
  {
    assert Ids(OriginOf(w), w.e.sidecar);
  }

  /** A lagging one fits too, except that between a write's size step and its copy
      it must not show less than the write. */
  lemma LaggingFits(w: World, size: nat, id: OriginId, deferred: bool, saved: bool)
    requires Inv(w) && LaggingStat(w, size, id)
    ensures w.mut.Write? && w.mut.phase.Landed? ==> OwnStatFits(w, size, id, deferred, saved)
    ensures StatFits(w, size, id, saved) <==>
            NoNews(w, size, id) || !(w.mut.Write? && w.mut.phase.Sized?) || w.mut.off + |w.mut.data| <= size
  {
  }

  /* ---- the marking half of the copy ---- */

  /** What the two covers of a write say about its byte range. */
  ghost predicate Covers(full: set<nat>, some: set<nat>, off: nat, n: nat, size: nat, ps: Grid) {
    && (forall p :: p in full ==> p < MAX_PIECES && Offset(p, ps) < size)
    && (forall i: nat {:trigger PieceOf(i, ps)} :: PieceOf(i, ps) in full ==> InRange(off, n, i))
    && (forall i: nat {:trigger PieceOf(i, ps)} ::
          InRange(off, n, i) && i < size && PieceOf(i, ps) < MAX_PIECES ==> PieceOf(i, ps) in some)
  }

  lemma CoversExactly(off: nat, n: nat, size: nat, ps: Grid)
    requires off + n <= size
    ensures Covers(CoverSet(FullCover(off, n, ps)), CoverSet(Cover(off, n, size, ps)), off, n, size, ps)
  {
    forall p | p in CoverSet(FullCover(off, n, ps)) ensures p < MAX_PIECES && Offset(p, ps) < size {
      FullCoverExact(off, n, p, ps);
      PieceRange(Offset(p, ps), p, ps);
    }
    forall i: nat | PieceOf(i, ps) in CoverSet(FullCover(off, n, ps)) ensures InRange(off, n, i) {
      FullCoverExact(off, n, PieceOf(i, ps), ps);
    }
    forall i: nat | InRange(off, n, i) && i < size && PieceOf(i, ps) < MAX_PIECES
      ensures PieceOf(i, ps) in CoverSet(Cover(off, n, size, ps))
    {
      CoverHolds(off, n, size, i, ps);
    }
  }

  /** The end of a copy, with the covers as plain sets. */
  ghost predicate CopyStep(w: World, v: World, full: set<nat>, some: set<nat>) {
    && w.mut.Write? && w.mut.phase.Sized? && w.lock.Copying? && v.lock.Free?
    && (v.mut.Idle? || (w.mut.phase.note.Some? && v.mut == w.mut.(phase := Noting(w.mut.phase.note.value))))
    && v.ps == w.ps && v.origin == w.origin && v.oid == w.oid && v.e.id == w.e.id
    && v.fills == w.fills && v.readers == w.readers && v.loads == w.loads && v.published == w.published
    && v.e.size == w.e.size && v.e.nbits == w.e.nbits && v.e.cache == w.e.cache
    && v.e.filling == w.e.filling && v.e.loading == w.e.loading
    && Covers(full, some, w.mut.off, |w.mut.data|, w.e.size, w.ps)
    && (v.e.sidecar == w.e.sidecar || v.e.sidecar == Some(Sidecar(v.e.size, v.e.nbits, v.e.bits, v.e.id)))
    && v.exposed == (if v.e.sidecar != w.e.sidecar then Stains(v.e.sidecar, v.ps, OriginOf(v)) else w.exposed)
  }

  ghost predicate CopiedStep(w: World, v: World, full: set<nat>, some: set<nat>) {
    && CopyStep(w, v, full, some) && w.lock.copied && v.e.writes == w.e.writes + 1
    && v.e.bits == w.e.bits + (set p | p in full && p < w.e.nbits)
    && (forall p :: p in v.e.hashes <==> p in full || (p in w.e.hashes && p !in some))
    && (forall p :: p in v.e.hashes ==>
          if p in full then v.e.hashes[p].of == InPiece(Extend(w.mut.off, w.mut.data), p, w.ps)
          else p in w.e.hashes && v.e.hashes[p] == w.e.hashes[p])
  }

  ghost predicate UncopiedStep(w: World, v: World, full: set<nat>, some: set<nat>) {
    && CopyStep(w, v, full, some) && v.e.writes == w.e.writes + 1
    && v.e.bits == w.e.bits - some
    && v.e.hashes == w.e.hashes - some
  }

  ghost predicate AppliedStep(w: World, v: World, full: set<nat>, some: set<nat>) {
    && CopyStep(w, v, full, some) && v.e == w.e && v.raw == w.raw
    && (forall i: nat {:trigger PieceOf(i, w.ps)} :: InRange(w.mut.off, |w.mut.data|, i) ==> PieceOf(i, w.ps) in full)
    && (forall p :: p in full ==>
          p in w.e.bits && p in w.e.hashes && w.e.hashes[p].of == InPiece(Extend(w.mut.off, w.mut.data), p, w.ps))
  }

  lemma WriteDigestKeys(w: World, full: set<nat>, some: set<nat>, p: nat)
    requires w.mut.Write? && p in full && w.mut.off + |w.mut.data| <= w.e.size
    requires Covers(full, some, w.mut.off, |w.mut.data|, w.e.size, w.ps)
    ensures InPiece(Extend(w.mut.off, w.mut.data), p, w.ps).Keys == PieceBytes(p, w.e.size, w.ps)
  {
    var x := Extend(w.mut.off, w.mut.data);
    forall i | i in PieceBytes(p, w.e.size, w.ps) ensures i in InPiece(x, p, w.ps) {
      assert i in x;
    }
  }

  lemma CopiedShape(w: World, v: World, full: set<nat>, some: set<nat>)
    requires Shape(w) && CopiedStep(w, v, full, some)
    ensures Shape(v)
  {
    forall p | p in v.e.hashes ensures v.e.hashes[p].of.Keys == PieceBytes(p, v.e.size, v.ps) {
      if p in full {
        WriteDigestKeys(w, full, some, p);
      }
    }
    CopiedIds(w, v, full, some);
  }

  lemma CopiedIds(w: World, v: World, full: set<nat>, some: set<nat>)
    requires Shape(w) && CopyStep(w, v, full, some)
    ensures Ids(OriginOf(v), v.e.sidecar) && Sizes(v.e.size, OriginOf(v)) && HasLanded(OriginOf(v))
  {
  }

  lemma CopiedBytes(w: World, v: World, full: set<nat>, some: set<nat>)
    requires Shape(w) && Bytes(w) && Locked(w) && CopiedStep(w, v, full, some)
    ensures Bytes(v)
  {
  }

  /** A digest taken of the write's own bytes is the origin's. */
  lemma WriteDigest(w: World, p: nat, i: nat)
    requires HasLanded(OriginOf(w)) && w.mut.Write? && w.mut.phase.Sized?
    requires i in InPiece(Extend(w.mut.off, w.mut.data), p, w.ps)
    ensures InRange(w.mut.off, |w.mut.data|, i)
    ensures AtOrigin(OriginOf(w), i, InPiece(Extend(w.mut.off, w.mut.data), p, w.ps)[i])
  {
    assert InRange(w.mut.off, |w.mut.data|, i);
    LandedByte(w, i);
  }

  lemma CopiedNewDigest(w: World, v: World, full: set<nat>, some: set<nat>, p: nat, i: nat)
    requires HasLanded(OriginOf(w)) && Locked(w) && CopiedStep(w, v, full, some)
    requires p in full && i in v.e.hashes[p].of
    ensures AtOrigin(OriginOf(v), i, v.e.hashes[p].of[i])
    ensures i in v.e.cache && v.e.cache[i] == v.e.hashes[p].of[i]
  {
    WriteDigest(w, p, i);
  }

  lemma CopiedOldDigest(w: World, v: World, full: set<nat>, some: set<nat>, p: nat, i: nat)
    requires Shape(w) && Trust(w.e.hashes, OriginOf(w)) && CopyStep(w, v, full, some)
    requires Coherent(w.e.hashes, w.e.bits, w.e.cache, OriginOf(w), true)
    requires p in w.e.hashes && p !in some && i in w.e.hashes[p].of
    ensures AtOrigin(OriginOf(v), i, w.e.hashes[p].of[i])
    ensures p in w.e.bits ==> i in v.e.cache && v.e.cache[i] == w.e.hashes[p].of[i]
  {
    assert i in PieceBytes(p, w.e.size, w.ps);
    assert !InRange(w.mut.off, |w.mut.data|, i);
  }

  lemma CopiedDigest(w: World, v: World, full: set<nat>, some: set<nat>, p: nat, i: nat)
    requires Shape(w) && Claims(w) && Locked(w) && CopiedStep(w, v, full, some)
    requires p in v.e.hashes && i in v.e.hashes[p].of
    ensures AtOrigin(OriginOf(v), i, v.e.hashes[p].of[i])
    ensures p in v.e.bits ==> i in v.e.cache && v.e.cache[i] == v.e.hashes[p].of[i]
  {
    if p in full {
      CopiedNewDigest(w, v, full, some, p, i);
    } else {
      CopiedOldDigest(w, v, full, some, p, i);
    }
  }

  lemma CopiedAgrees(w: World, v: World, full: set<nat>, some: set<nat>, p: nat)
    requires Shape(w) && Claims(w) && Locked(w) && CopiedStep(w, v, full, some) && p in v.e.hashes
    ensures Agrees(v.e.hashes[p].of, OriginOf(v))
  {
    forall i | i in v.e.hashes[p].of ensures AtOrigin(OriginOf(v), i, v.e.hashes[p].of[i]) {
      CopiedDigest(w, v, full, some, p, i);
    }
  }

  lemma CopiedTrust(w: World, v: World, full: set<nat>, some: set<nat>)
    requires Shape(w) && Claims(w) && Locked(w) && CopiedStep(w, v, full, some)
    ensures Trust(v.e.hashes, OriginOf(v))
    ensures Coherent(v.e.hashes, v.e.bits, v.e.cache, OriginOf(v), v.lock.Copying?)
  {
    forall p | p in v.e.hashes ensures Agrees(v.e.hashes[p].of, OriginOf(v)) {
      CopiedAgrees(w, v, full, some, p);
    }
    forall p, i | p in v.e.hashes && p in v.e.bits && i in v.e.hashes[p].of
      ensures i in v.e.cache && v.e.cache[i] == v.e.hashes[p].of[i]
    {
      CopiedDigest(w, v, full, some, p, i);
    }
  }

  lemma BumpedFills(w: World, v: World)
    requires Claims(w) && v.ps == w.ps && v.fills == w.fills && v.e.filling == w.e.filling
    requires v.e.writes == w.e.writes + 1
    ensures Fills(v.ps, v.fills, v.e.filling, v.e.writes, v.e.size, v.e.bits, OriginOf(v))
  {
  }

  lemma UncopiedShape(w: World, v: World, full: set<nat>, some: set<nat>)
    requires Shape(w) && UncopiedStep(w, v, full, some)
    ensures Shape(v)
  {
  }

  lemma UncopiedBytes(w: World, v: World, full: set<nat>, some: set<nat>)
    requires Shape(w) && Bytes(w) && UncopiedStep(w, v, full, some)
    ensures Bytes(v)
  {
  }

  lemma UncopiedTrust(w: World, v: World, full: set<nat>, some: set<nat>)
    requires Shape(w) && Claims(w) && UncopiedStep(w, v, full, some)
    ensures Trust(v.e.hashes, OriginOf(v))
    ensures Coherent(v.e.hashes, v.e.bits, v.e.cache, OriginOf(v), v.lock.Copying?)
  {
    forall p, i | p in v.e.hashes && i in v.e.hashes[p].of
      ensures AtOrigin(OriginOf(v), i, v.e.hashes[p].of[i])
      ensures p in v.e.bits ==> i in v.e.cache && v.e.cache[i] == v.e.hashes[p].of[i]
    {
      CopiedOldDigest(w, v, full, some, p, i);
    }
  }

  lemma AppliedByte(w: World, v: World, full: set<nat>, some: set<nat>, i: nat)
    requires Shape(w) && Claims(w) && AppliedStep(w, v, full, some)
    requires InRange(w.mut.off, |w.mut.data|, i)
    ensures PieceOf(i, w.ps) in w.e.bits && PieceOf(i, w.ps) in w.e.hashes
    ensures i in w.e.hashes[PieceOf(i, w.ps)].of
    ensures AtOrigin(OriginOf(w), i, w.e.hashes[PieceOf(i, w.ps)].of[i])
    ensures i in w.e.cache && AtOrigin(OriginOf(w), i, w.e.cache[i])
  {
    var p := PieceOf(i, w.ps);
    assert p in full && i in Extend(w.mut.off, w.mut.data);
    WriteDigest(w, p, i);
  }

  lemma AppliedKeeps(w: World, v: World, full: set<nat>, some: set<nat>)
    requires Inv(w) && AppliedStep(w, v, full, some)
    ensures Inv(v)
  {
    forall i: nat | InRange(w.mut.off, |w.mut.data|, i)
      ensures PieceOf(i, w.ps) in w.e.bits && PieceOf(i, w.ps) in w.e.hashes
      ensures i in w.e.hashes[PieceOf(i, w.ps)].of
      ensures AtOrigin(OriginOf(w), i, w.e.hashes[PieceOf(i, w.ps)].of[i])
      ensures i in w.e.cache && AtOrigin(OriginOf(w), i, w.e.cache[i])
    {
      AppliedByte(w, v, full, some, i);
    }
    AppliedBytes(w, v);
    AppliedClaims(w, v);
  }

  /** Every byte of the range is already the origin's, in cache and digest. */
  ghost predicate AllApplied(w: World, v: World) {
    && w.mut.Write? && w.mut.phase.Sized? && w.lock.Copying? && v.lock.Free?
    && (v.mut.Idle? || (w.mut.phase.note.Some? && v.mut == w.mut.(phase := Noting(w.mut.phase.note.value))))
    && v == w.(mut := v.mut, lock := Free)
    && (forall i: nat {:trigger PieceOf(i, w.ps)} :: InRange(w.mut.off, |w.mut.data|, i) ==>
          && PieceOf(i, w.ps) in w.e.bits && PieceOf(i, w.ps) in w.e.hashes
          && i in w.e.hashes[PieceOf(i, w.ps)].of
          && AtOrigin(OriginOf(w), i, w.e.hashes[PieceOf(i, w.ps)].of[i])
          && i in w.e.cache && AtOrigin(OriginOf(w), i, w.e.cache[i]))
  }

  lemma AppliedBytes(w: World, v: World)
    requires Shape(w) && Bytes(w) && AllApplied(w, v)
    ensures Shape(v) && Bytes(v)
  {
  }

  lemma AppliedClaims(w: World, v: World)
    requires Shape(w) && Claims(w) && AllApplied(w, v)
    ensures Claims(v)
  {
    forall p, i | p in v.e.hashes && i in v.e.hashes[p].of
      ensures AtOrigin(OriginOf(v), i, v.e.hashes[p].of[i])
      ensures p in v.e.bits ==> i in v.e.cache && v.e.cache[i] == v.e.hashes[p].of[i]
    {
      assert i in PieceBytes(p, w.e.size, w.ps);
    }
    forall p | p in v.fills
      ensures FillOk(v.ps, p, v.fills[p], v.e.filling[p], v.e.writes, v.e.size, v.e.bits, OriginOf(v))
    {
      assert FillOk(w.ps, p, w.fills[p], w.e.filling[p], w.e.writes, w.e.size, w.e.bits, OriginOf(w));
    }
  }

  lemma CopyEndApplied(w: World, saved: bool)
    requires Shape(w) && CanCopyEnd(w) && AlreadyApplied(w.e, w.mut.off, w.mut.data, w.ps)
    ensures AppliedStep(w, DoCopyEnd(w, saved), CoverSet(FullCover(w.mut.off, |w.mut.data|, w.ps)),
                        CoverSet(Cover(w.mut.off, |w.mut.data|, w.e.size, w.ps)))
  {
    var off, n := w.mut.off, |w.mut.data|;
    CoversExactly(off, n, w.e.size, w.ps);
    forall i: nat | InRange(off, n, i) ensures PieceOf(i, w.ps) in CoverSet(FullCover(off, n, w.ps)) {
      AlignedCover(off, n, i, w.ps);
    }
  }

  lemma CopyEndCopied(w: World, saved: bool)
    requires Shape(w) && CanCopyEnd(w) && !AlreadyApplied(w.e, w.mut.off, w.mut.data, w.ps) && w.lock.copied
    ensures CopiedStep(w, DoCopyEnd(w, saved), CoverSet(FullCover(w.mut.off, |w.mut.data|, w.ps)),
                       CoverSet(Cover(w.mut.off, |w.mut.data|, w.e.size, w.ps)))
  {
    CoversExactly(w.mut.off, |w.mut.data|, w.e.size, w.ps);
  }

  lemma CopyEndUncopied(w: World, saved: bool)
    requires Shape(w) && CanCopyEnd(w) && !AlreadyApplied(w.e, w.mut.off, w.mut.data, w.ps) && !w.lock.copied
    ensures UncopiedStep(w, DoCopyEnd(w, saved), CoverSet(FullCover(w.mut.off, |w.mut.data|, w.ps)),
                         CoverSet(Cover(w.mut.off, |w.mut.data|, w.e.size, w.ps)))
  {
    CoversExactly(w.mut.off, |w.mut.data|, w.e.size, w.ps);
  }

  lemma KeepCopyEnd(w: World, saved: bool)
    requires Inv(w) && CanCopyEnd(w)
    ensures Inv(DoCopyEnd(w, saved))
  {
    var v := DoCopyEnd(w, saved);
    var full := CoverSet(FullCover(w.mut.off, |w.mut.data|, w.ps));
    var some := CoverSet(Cover(w.mut.off, |w.mut.data|, w.e.size, w.ps));
    if AlreadyApplied(w.e, w.mut.off, w.mut.data, w.ps) {
      CopyEndApplied(w, saved);
    } else if w.lock.copied {
      CopyEndCopied(w, saved);
    } else {
      CopyEndUncopied(w, saved);
    }
    CopyKeeps(w, v, full, some);
  }

  lemma CopyKeeps(w: World, v: World, full: set<nat>, some: set<nat>)
    requires Inv(w)
    requires AppliedStep(w, v, full, some) || CopiedStep(w, v, full, some) || UncopiedStep(w, v, full, some)
    ensures Inv(v)
  {
    if AppliedStep(w, v, full, some) {
      AppliedKeeps(w, v, full, some);
    } else if CopiedStep(w, v, full, some) {
      CopiedShape(w, v, full, some);
      CopiedBytes(w, v, full, some);
      CopiedTrust(w, v, full, some);
      BumpedFills(w, v);
    } else {
      UncopiedShape(w, v, full, some);
      UncopiedBytes(w, v, full, some);
      UncopiedTrust(w, v, full, some);
      BumpedFills(w, v);
    }
  }

  /* ---- the end of a fill ---- */

  /** Equal piece lengths: the claimed bytes are the piece's bytes still. */
  lemma ClaimNamesPiece(f: Fill, p: nat, size: nat, ps: Grid)
    requires f.len > 0 && Len(size, p, ps) == f.len
    ensures FillBytes(f, p, ps) == PieceBytes(p, size, ps) && Offset(p, ps) < size
  {
    LenNamesBytes(size, Offset(p, ps) + f.len, p, ps);
  }

  /** The end of a fill: the mark and the digest appear, or only the claim goes. */
  ghost predicate FillEndStep(w: World, v: World, marked: bool) {
    && w.lock.Landing? && w.lock.piece in w.fills && w.lock.piece in w.e.filling
    && v.lock.Free? && v.ps == w.ps && v.origin == w.origin && v.oid == w.oid && v.mut == w.mut
    && v.readers == w.readers && v.loads == w.loads && v.published == w.published && v.fills == w.fills - {w.lock.piece}
    && v.e.size == w.e.size && v.e.nbits == w.e.nbits && v.e.cache == w.e.cache && v.e.writes == w.e.writes
    && v.e.filling == w.e.filling - {w.lock.piece} && v.e.id == w.e.id && v.e.loading == w.e.loading
    && (if marked then
          && w.lock.written && w.e.filling[w.lock.piece] == w.e.writes
          && w.lock.buf.Keys == PieceBytes(w.lock.piece, w.e.size, w.ps) && Offset(w.lock.piece, w.ps) < w.e.size
          && v.e.hashes == w.e.hashes[w.lock.piece := Blake3(w.lock.buf)]
          && v.e.bits == (if w.lock.piece < w.e.nbits then w.e.bits + {w.lock.piece} else w.e.bits)
        else v.e.hashes == w.e.hashes && v.e.bits == w.e.bits)
    && (v.e.sidecar == w.e.sidecar || v.e.sidecar == Some(Sidecar(v.e.size, v.e.nbits, v.e.bits, v.e.id)))
    && v.exposed == (if v.e.sidecar != w.e.sidecar then Stains(v.e.sidecar, v.ps, OriginOf(v)) else w.exposed)
  }

  predicate Marks(w: World)
    requires CanFillEnd(w)
  {
    && w.lock.written && w.lock.piece in w.e.filling && w.e.filling[w.lock.piece] == w.e.writes
    && Len(w.e.size, w.lock.piece, w.ps) == w.fills[w.lock.piece].len
  }

  lemma FillEndDrops(w: World, saved: bool)
    requires CanFillEnd(w) && w.lock.piece in w.e.filling && !Marks(w)
    ensures FillEndStep(w, DoFillEnd(w, saved), false)
  {
  }

  lemma FillEndMarks(w: World, saved: bool)
    requires CanFillEnd(w) && Marks(w) && Offset(w.lock.piece, w.ps) < w.e.size
    requires w.lock.buf.Keys == PieceBytes(w.lock.piece, w.e.size, w.ps)
    ensures FillEndStep(w, DoFillEnd(w, saved), true)
  {
  }

  lemma FillEndCases(w: World, saved: bool)
    requires CanFillEnd(w) && Locked(w)
    requires Fills(w.ps, w.fills, w.e.filling, w.e.writes, w.e.size, w.e.bits, OriginOf(w))
    ensures FillEndStep(w, DoFillEnd(w, saved), Marks(w))
  {
    var p := w.lock.piece;
    if Marks(w) {
      assert FillOk(w.ps, p, w.fills[p], w.e.filling[p], w.e.writes, w.e.size, w.e.bits, OriginOf(w));
      ClaimNamesPiece(w.fills[p], p, w.e.size, w.ps);
      FillEndMarks(w, saved);
    } else {
      FillEndDrops(w, saved);
    }
  }

  lemma FillEndShape(w: World, v: World, marked: bool)
    requires Shape(w) && Claims(w) && FillEndStep(w, v, marked)
    ensures Shape(v)
  {
    assert FillOk(w.ps, w.lock.piece, w.fills[w.lock.piece], w.e.filling[w.lock.piece], w.e.writes, w.e.size,
                  w.e.bits, OriginOf(w));
  }

  lemma FillEndHonest(w: World, v: World, marked: bool)
    requires Bytes(w) && Locked(w) && FillEndStep(w, v, marked)
    ensures Honest(v.ps, v.e.size, v.e.bits, v.e.cache, OriginOf(v))
  {
    forall i: nat | i < v.e.size && PieceOf(i, v.ps) in v.e.bits
      ensures i in v.e.cache && (InFlux(OriginOf(v), i) || AtOrigin(OriginOf(v), i, v.e.cache[i]))
    {
      if PieceOf(i, w.ps) !in w.e.bits {
        assert i in w.lock.buf;
      }
    }
  }

  lemma FillEndBytes(w: World, v: World, marked: bool)
    requires Shape(w) && Bytes(w) && Locked(w) && FillEndStep(w, v, marked)
    ensures Bytes(v)
  {
    FillEndHonest(w, v, marked);
  }

  lemma FillEndClaims(w: World, v: World, marked: bool)
    requires Claims(w) && Locked(w) && FillEndStep(w, v, marked)
    ensures Claims(v)
  {
    forall p | p in v.fills
      ensures FillOk(v.ps, p, v.fills[p], v.e.filling[p], v.e.writes, v.e.size, v.e.bits, OriginOf(v))
    {
      assert FillOk(w.ps, p, w.fills[p], w.e.filling[p], w.e.writes, w.e.size, w.e.bits, OriginOf(w));
    }
  }

  lemma KeepFillEnd(w: World, saved: bool)
    requires Inv(w) && CanFillEnd(w)
    ensures Inv(DoFillEnd(w, saved))
  {
    var v := DoFillEnd(w, saved);
    FillEndCases(w, saved);
    FillEndShape(w, v, Marks(w));
    FillEndBytes(w, v, Marks(w));
    FillEndClaims(w, v, Marks(w));
  }

  /* ---- a restart ---- */

  lemma StartedPiece(i: nat, size: nat, ps: Grid)
    requires i < size && PieceOf(i, ps) < MAX_PIECES
    ensures PieceOf(i, ps) < Count(size, ps)
  {
    PieceRange(i, PieceOf(i, ps), ps);
    DivCeilBound(size, PieceOf(i, ps), ps);
  }

  /** The entry a restart builds, as far as the invariant sees it. */
  ghost predicate Restarts(w: World, l: Look, u: World) {
    && u == World(w.ps, u.e, w.origin, w.oid, if Unseen(w, u.e.id) then Rewritten else Idle, Free, map[], map[], 0,
                  map[], w.published, {})
    && u.e.size == l.size && u.e.bits == LoadBits(w.e.sidecar, l.size, l.id, w.ps) && u.e.nbits == Count(l.size, w.ps)
    && u.e.id == OpenedId(w.e.sidecar, l, w.ps) && u.e.hashes == map[] && u.e.filling == map[] && !u.e.loading
    && (u.e.bits != {} ==> u.e.cache == w.e.cache)
  }

  lemma ReloadRestarts(w: World, l: Look)
    ensures Restarts(w, l, Reloaded(w, l))
  {
    OpenedIs(w.e.sidecar, w.e.cache, l, w.e.storage + 1, w.ps);
    RestartsWith(w, l, Opened(w.e.sidecar, w.e.cache, l, w.e.storage + 1, w.ps));
  }

  lemma RestartsWith(w: World, l: Look, e: Entry)
    requires e == Opened(w.e.sidecar, w.e.cache, l, w.e.storage + 1, w.ps)
    ensures Reloaded(w, l) == World(w.ps, e, w.origin, w.oid, if Unseen(w, e.id) then Rewritten else Idle, Free,
                                    map[], map[], 0, map[], w.published, {})
  {
  }

  /** A look at an older state leaves a sidecar of the current identity only if that
      has another size and the wipe fails. */
  lemma OlderLook(w: World, l: Look)
    requires w.e.sidecar.Some? && w.e.sidecar.value.id == w.oid && w.oid.known
    requires OpenedId(w.e.sidecar, l, w.ps) != w.oid && Measures(w.e.sidecar.value, l.size, w.ps)
    ensures var e := Opened(w.e.sidecar, w.e.cache, l, w.e.storage + 1, w.ps);
      if l.saved then e.sidecar == Some(Sidecar(l.size, Count(l.size, w.ps), {}, e.id))
      else e.sidecar.Some? && e.sidecar.value.id == w.oid
  {
  }

  lemma ReloadIds(w: World, l: Look)
    requires Ids(OriginOf(w), w.e.sidecar) && KnownId(OpenedId(w.e.sidecar, l, w.ps), w.oid)
    ensures var u := Reloaded(w, l);
      Ids(OriginOf(u), u.e.sidecar) <==>
      (u.e.id != w.oid && w.e.sidecar.Some? && w.e.sidecar.value.id == w.oid ==>
         if Measures(w.e.sidecar.value, l.size, w.ps) then l.saved else l.wiped)
  {
    var u := Reloaded(w, l);
    ReloadRestarts(w, l);
    OpenedSidecar(w.e.sidecar, w.e.cache, l, w.e.storage + 1, w.ps);
    if u.e.id != w.oid && w.e.sidecar.Some? && w.e.sidecar.value.id == w.oid &&
       Measures(w.e.sidecar.value, l.size, w.ps) {
      OlderLook(w, l);
    } else {
      SidecarIds(w, l, u);
    }
  }

  lemma SidecarIds(w: World, l: Look, u: World)
    requires Ids(OriginOf(w), w.e.sidecar) && KnownId(u.e.id, w.oid) && u.oid == w.oid && !u.mut.Write?
    requires if w.e.sidecar.Some? && !Measures(w.e.sidecar.value, l.size, w.ps) then
               u.e.sidecar == if l.wiped then Some(Sidecar(l.size, Count(l.size, w.ps), {}, UNKNOWN)) else w.e.sidecar
             else
               || u.e.sidecar == w.e.sidecar
               || (w.e.sidecar.Some? &&
                   u.e.sidecar == Some(Sidecar(l.size, Count(l.size, w.ps), {}, w.e.sidecar.value.id)))
               || u.e.sidecar == Some(Sidecar(l.size, Count(l.size, w.ps), u.e.bits, u.e.id))
    requires u.e.id != w.oid && w.e.sidecar.Some? && w.e.sidecar.value.id == w.oid ==>
               !Measures(w.e.sidecar.value, l.size, w.ps)
    ensures Ids(OriginOf(u), u.e.sidecar) <==>
      (u.e.id != w.oid && w.e.sidecar.Some? && w.e.sidecar.value.id == w.oid ==> l.wiped)
  {
  }

  lemma ReloadShape(w: World, l: Look)
    requires Shape(w)
    ensures Shape(Reloaded(w, l)) <==> LookFits(w, l)
  {
    var u := Reloaded(w, l);
    ReloadRestarts(w, l);
    forall p | p in u.e.bits ensures Offset(p, w.ps) < l.size {
      DivCeilBound(l.size, p, w.ps);
    }
    if KnownId(u.e.id, w.oid) {
      ReloadIds(w, l);
    }
  }

  /** The process dies and the next one opens the file against any look: the invariant
      is kept exactly when the look fits and no mark it trusts is mistaken. */
  lemma KeepCrash(w: World, l: Look)
    requires Inv(w)
    ensures Inv(Reloaded(w, l)) <==> LookFits(w, l) && !Mistaken(w, l)
  {
    var u := Reloaded(w, l);
    ReloadShape(w, l);
    ReloadRestarts(w, l);
    ReloadHonest(w, l, u);
    if LookFits(w, l) && !Mistaken(w, l) {
      ReloadCrashSafe(w, l);
    }
  }

  lemma ReloadHonest(w: World, l: Look, u: World)
    requires Restarts(w, l, u)
    ensures Honest(u.ps, u.e.size, u.e.bits, u.e.cache, OriginOf(u)) <==> !Mistaken(w, l)
  {
    forall i: nat | i < l.size && PieceOf(i, w.ps) in u.e.bits
      ensures MistakenAt(w, l, i) <==>
              !(i in u.e.cache && (InFlux(OriginOf(u), i) || AtOrigin(OriginOf(u), i, u.e.cache[i])))
    {
    }
    if Mistaken(w, l) {
      var i :| MistakenAt(w, l, i);
      assert PieceOf(i, w.ps) in u.e.bits;
    }
  }

  lemma ReloadCrashSafe(w: World, l: Look)
    requires Shape(w) && Shape(Reloaded(w, l)) && !Mistaken(w, l)
    ensures var u := Reloaded(w, l); CrashSafe(u.ps, u.e.sidecar, u.e.cache, u.exposed, OriginOf(u))
  {
    var u := Reloaded(w, l);
    ReloadRestarts(w, l);
    OpenedSidecar(w.e.sidecar, w.e.cache, l, w.e.storage + 1, w.ps);
    ReloadHonest(w, l, u);
    if Loadable(u.e.sidecar, w.ps, OriginOf(u)) && u.e.sidecar.value.bits != {} {
      LoadableMarks(w, l, u);
    }
  }

  lemma LoadableMarks(w: World, l: Look, u: World)
    requires Shape(u) && u.e.size == l.size && !u.mut.Write? && !u.mut.Trunc?
    requires Honest(u.ps, u.e.size, u.e.bits, u.e.cache, OriginOf(u))
    requires Loadable(u.e.sidecar, u.ps, OriginOf(u)) && u.e.sidecar.value.bits != {}
    requires u.e.bits == LoadBits(u.e.sidecar, l.size, u.oid, u.ps)
    ensures CrashSafe(u.ps, u.e.sidecar, u.e.cache, u.exposed, OriginOf(u))
  {
    var sc := u.e.sidecar.value;
    assert Ids(OriginOf(u), u.e.sidecar);
    forall i: nat | i < sc.size && PieceOf(i, u.ps) in sc.bits && PieceOf(i, u.ps) < MAX_PIECES
      ensures i in u.e.cache && AtOrigin(OriginOf(u), i, u.e.cache[i]) && !InFlux(OriginOf(u), i)
    {
      StartedPiece(i, |u.origin|, u.ps);
      assert PieceOf(i, u.ps) in u.e.bits;
    }
  }

  /** A look that is not older than the object fits, and makes no mark of another
      identity look current. */
  lemma NowFits(w: World, l: Look)
    requires Shape(w) && l.size == |w.origin| && l.id == w.oid
    ensures LookFits(w, l) && OpenedId(w.e.sidecar, l, w.ps) == w.oid
  {
    assert Ids(OriginOf(w), w.e.sidecar);
  }

  /* ---- the origin moves under the entry ---- */

  /** The origin changes inside the range in flight and gets an identity that is news
      to everyone. */
  ghost predicate MoveStep(w: World, v: World) {
    && v == OriginMoves(w, v.origin, v.oid, v.mut) && Supersedes(w, v.oid)
    && ((Running(w) && v.mut in {w.mut.(phase := Torn), w.mut.(phase := Landed)} && |w.origin| <= |v.origin|)
        || (w.mut.Trunc? && !w.mut.landed && v.mut == w.mut.(landed := true) && |v.origin| == w.mut.size)
        || ((w.mut.Idle? || w.mut.Rewritten?) && v.mut.Rewritten?))
    && (forall i: nat {:trigger v.origin[i]} :: i < |w.origin| && !InFlight(v.mut, i) ==>
          i < |v.origin| && v.origin[i] == w.origin[i])
    && HasLanded(OriginOf(v))
  }

  /** After the move exactly the range in flight is in flux; nothing was before
      it that is not in it now. */
  lemma MoveFlux(w: World, v: World)
    requires Shape(w) && MoveStep(w, v)
    ensures w.e.id != v.oid
    ensures forall i {:trigger InFlux(OriginOf(v), i)} :: InFlux(OriginOf(v), i) <==> InFlight(v.mut, i)
    ensures forall i {:trigger InFlux(OriginOf(w), i)} :: InFlux(OriginOf(w), i) ==> InFlight(v.mut, i)
  {
  }

  lemma MoveShape(w: World, v: World)
    requires Shape(w) && MoveStep(w, v)
    ensures Shape(v)
  {
  }

  lemma MoveBytes(w: World, v: World)
    requires Shape(w) && Bytes(w) && MoveStep(w, v)
    ensures Bytes(v)
  {
    MoveFlux(w, v);
    MoveShape(w, v);
    forall r, i | r in v.readers && i in v.readers[r].clean
      ensures i in v.e.cache && AtOrigin(OriginOf(v), i, v.e.cache[i]) && !InFlux(OriginOf(v), i)
    {
      assert i in w.readers[r].clean;
    }
  }

  lemma MoveAgrees(w: World, v: World, x: Extent)
    requires Shape(w) && MoveStep(w, v) && Agrees(x, OriginOf(w))
    ensures Agrees(x, OriginOf(v))
  {
    MoveFlux(w, v);
  }

  lemma MoveClaims(w: World, v: World)
    requires Shape(w) && Claims(w) && MoveStep(w, v) && !w.lock.Copying?
    ensures Claims(v)
  {
    forall p | p in w.e.hashes ensures Agrees(w.e.hashes[p].of, OriginOf(v)) {
      MoveAgrees(w, v, w.e.hashes[p].of);
    }
    forall p | p in v.fills
      ensures FillOk(v.ps, p, v.fills[p], v.e.filling[p], v.e.writes, v.e.size, v.e.bits, OriginOf(v))
    {
      assert FillOk(w.ps, p, w.fills[p], w.e.filling[p], w.e.writes, w.e.size, w.e.bits, OriginOf(w));
      if w.e.filling[p] == w.e.writes {
        if w.fills[p].buf.Some? { MoveAgrees(w, v, w.fills[p].buf.value); }
        if w.fills[p].want.Some? { MoveAgrees(w, v, w.fills[p].want.value.of); }
      }
    }
  }

  lemma MoveLocked(w: World, v: World)
    requires Shape(w) && Locked(w) && MoveStep(w, v)
    ensures Locked(v)
  {
    MoveFlux(w, v);
  }

  lemma NotAhead(id: OriginId, now: OriginId)
    requires now.known && (id.known ==> ContentChanged(id, now))
    ensures !Newer(now, id) && id != now
  {
  }

  lemma MovePublished(w: World, v: World)
    requires Published(w.published, w.origin, w.oid) && MoveStep(w, v)
    ensures Published(v.published, v.origin, v.oid)
  {
    forall m | m in v.published ensures PublishedOk(m, v.origin, v.oid) {
      if m.identity.Some? {
        NotAhead(m.identity.value, v.oid);
      }
    }
  }

  lemma NewerIsSeen(was: OriginId, now: OriginId, id: OriginId)
    requires Newer(was, now) && id.known && !Newer(was, id)
    ensures ContentChanged(id, now)
  {
  }

  /** A mutation of this node leaves the inode and a newer mtime, which is news to
      every identity on record. */
  lemma NewerSupersedes(w: World, now: OriginId)
    requires Ids(OriginOf(w), w.e.sidecar) && Published(w.published, w.origin, w.oid) && Newer(w.oid, now)
    ensures Supersedes(w, now)
  {
    NewerIsSeen(w.oid, now, w.e.id);
    if w.e.sidecar.Some? && w.e.sidecar.value.id.known {
      NewerIsSeen(w.oid, now, w.e.sidecar.value.id);
    }
    forall m | m in w.published && m.identity.Some? && m.identity.value.known
      ensures ContentChanged(m.identity.value, now)
    {
      assert PublishedOk(m, w.origin, w.oid);
      NewerIsSeen(w.oid, now, m.identity.value);
    }
  }

  lemma MoveKeeps(w: World, v: World)
    requires Inv(w) && MoveStep(w, v)
    ensures Inv(v)
  {
    MovePublished(w, v);
    MoveShape(w, v);
    MoveBytes(w, v);
    MoveClaims(w, v);
    MoveLocked(w, v);
  }

  lemma KeepWriteTear(w: World, after: seq<Byte>, id: OriginId)
    requires Inv(w) && CanWriteTear(w, after, id)
    ensures Inv(DoWriteTear(w, after, id))
  {
    NewerSupersedes(w, id);
    MoveKeeps(w, DoWriteTear(w, after, id));
  }

  lemma WriteLands(w: World, id: OriginId)
    requires Inv(w) && CanWriteLand(w, id)
    ensures MoveStep(w, DoWriteLand(w, id))
  {
    NewerSupersedes(w, id);
  }

  lemma KeepWriteLand(w: World, id: OriginId)
    requires Inv(w) && CanWriteLand(w, id)
    ensures Inv(DoWriteLand(w, id))
  {
    WriteLands(w, id);
    MoveKeeps(w, DoWriteLand(w, id));
  }

  lemma TruncLands(w: World, id: OriginId)
    requires Inv(w) && CanTruncLand(w, id)
    ensures MoveStep(w, DoTruncLand(w, id))
  {
    NewerSupersedes(w, id);
    var v := DoTruncLand(w, id);
    forall i: nat | i < |w.origin| && !InFlight(v.mut, i)
      ensures i < |v.origin| && v.origin[i] == w.origin[i]
    {
    }
  }

  lemma KeepTruncLand(w: World, id: OriginId)
    requires Inv(w) && CanTruncLand(w, id)
    ensures Inv(DoTruncLand(w, id))
  {
    TruncLands(w, id);
    MoveKeeps(w, DoTruncLand(w, id));
  }

  /** No entry, sidecar or manifest has this identity yet. */
  predicate Unrecorded(w: World, id: OriginId) {
    && id != w.e.id && Elsewhere(w.e.sidecar, id)
    && forall m :: m in w.published && m.identity.Some? ==> m.identity.value != id
  }

  /** Another node's rewrite or replacement: an identity that no one has recorded keeps
      the invariant exactly when it is news to all that is recorded. */
  lemma KeepForeignRewrite(w: World, after: seq<Byte>, id: OriginId)
    requires Inv(w) && CanForeignRewrite(w, id) && (Supersedes(w, id) || Unrecorded(w, id))
    ensures Inv(DoForeignRewrite(w, after, id)) <==> Supersedes(w, id)
  {
    var v := DoForeignRewrite(w, after, id);
    if Supersedes(w, id) {
      assert forall i: nat :: InFlight(v.mut, i);
      MoveKeeps(w, v);
    } else if Inv(v) {
      assert Ids(OriginOf(v), v.e.sidecar);
      PublishedSeen(w, v, id);
    }
  }

  lemma PublishedSeen(w: World, v: World, id: OriginId)
    requires Unrecorded(w, id) && v.published == w.published && Published(v.published, v.origin, id) && id.known
    ensures forall m :: m in w.published && m.identity.Some? && m.identity.value.known ==>
              ContentChanged(m.identity.value, id)
  {
    forall m | m in w.published && m.identity.Some? && m.identity.value.known
      ensures ContentChanged(m.identity.value, id)
    {
      assert PublishedOk(m, v.origin, id);
    }
  }

  /* ---- manifests on the origin, and torn saves ---- */

  /** Outside the window an entry at the current identity has nothing in flux; inside
      it, exactly the range of the write. */
  lemma CurrentFlux(w: World, i: nat)
    requires w.e.id == w.oid
    ensures Dirty(w, i) <==> InWindow(w) && InRange(w.mut.off, |w.mut.data|, i)
  {
  }

  lemma SnapshotGridded(w: World, n: nat)
    requires Geometry(w.ps, w.e.size, w.e.nbits, w.e.bits, w.e.hashes) && n == w.e.size
    ensures Gridded(Snapshot(w, n))
  {
  }

  /** A published digest is one of the entry's, and trusted outside the bytes in flux. */
  lemma SnapshotByte(w: World, n: nat, p: nat, i: nat)
    requires Inv(w) && p in Snapshot(w, n).entries && i in Snapshot(w, n).entries[p].of
    ensures p in w.e.hashes && p < Count(n, w.ps) && Snapshot(w, n).entries[p] == w.e.hashes[p]
    ensures Dirty(w, i) || AtByte(w.origin, i, w.e.hashes[p].of[i])
  {
    assert Agrees(w.e.hashes[p].of, OriginOf(w));
  }

  lemma FitSnapshot(w: World, n: nat)
    requires Inv(w) && PublishFits(w, n) && w.e.id == w.oid && n == |w.origin|
    ensures Describes(Snapshot(w, n), w.origin)
  {
    var m := Snapshot(w, n);
    SnapshotGridded(w, n);
    forall p, i | p in m.entries && i in m.entries[p].of ensures AtByte(w.origin, i, m.entries[p].of[i]) {
      SnapshotByte(w, n, p, i);
      CurrentFlux(w, i);
      if Dirty(w, i) {
        assert w.e.hashes[p].of[i] == w.mut.data[i - w.mut.off];
        LandedByte(w, i);
      }
    }
  }

  lemma UnfitSnapshot(w: World, n: nat)
    requires Inv(w) && !PublishFits(w, n)
    ensures w.e.id == w.oid && n == |w.origin| && !Describes(Snapshot(w, n), w.origin)
  {
    var m := Snapshot(w, n);
    var p, i :| p in w.e.hashes && p < Count(n, w.ps) && i in w.e.hashes[p].of && InRange(w.mut.off, |w.mut.data|, i) &&
                w.e.hashes[p].of[i] != w.mut.data[i - w.mut.off];
    LandedByte(w, i);
    assert p in m.entries && i in m.entries[p].of;
  }

  /** What is published names the current object truthfully exactly when no digest in
      it covers a byte that the write in its window changes. */
  lemma SnapshotDescribes(w: World, n: nat)
    requires Inv(w)
    ensures PublishedOk(Snapshot(w, n), w.origin, w.oid) <==> PublishFits(w, n)
  {
    assert Ids(OriginOf(w), w.e.sidecar);
    if !PublishFits(w, n) {
      UnfitSnapshot(w, n);
    } else if w.e.id == w.oid && n == |w.origin| {
      FitSnapshot(w, n);
    }
  }

  lemma PublishRest(w: World, m: Manifest)
    requires Inv(w)
    ensures Inv(DoPublish(w, m)) <==> PublishedOk(m, w.origin, w.oid)
  {
    var v := DoPublish(w, m);
    assert m in v.published;
    assert OriginOf(v) == OriginOf(w);
  }

  /** This node publishes: the invariant is kept exactly when the window allows it. */
  lemma KeepPublish(w: World, n: nat)
    requires Inv(w) && CanPublish(w, n)
    ensures Inv(DoPublish(w, Snapshot(w, n))) <==> PublishFits(w, n)
  {
    SnapshotDescribes(w, n);
    PublishRest(w, Snapshot(w, n));
  }

  lemma KeepForeignPublish(w: World, m: Manifest)
    requires Inv(w)
    ensures Inv(DoPublish(w, m.(mtimeOld := false))) <==> PublishedOk(m, w.origin, w.oid)
  {
    AgeIsNothing(m, false, w.origin, w.oid);
    PublishRest(w, m.(mtimeOld := false));
  }

  lemma AgeIsNothing(m: Manifest, aged: bool, bytes: seq<Byte>, oid: OriginId)
    ensures PublishedOk(m.(mtimeOld := aged), bytes, oid) <==> PublishedOk(m, bytes, oid)
    ensures Gridded(m.(mtimeOld := aged)) <==> Gridded(m)
  {
  }

  /** A torn save that a restart throws away keeps the invariant; one it takes for a
      sidecar without identity does not, unless that names no piece. */
  lemma KeepTearSidecar(w: World, bare: bool)
    requires Inv(w) && FileMuFree(w)
    ensures Inv(DoTearSidecar(w, bare)) <==> (bare ==> w.e.bits == {})
  {
    if bare && w.e.bits != {} {
      assert !Ids(OriginOf(DoTearSidecar(w, bare)), DoTearSidecar(w, bare).e.sidecar);
    }
  }

  /* ---- actions that leave marks and bytes alone, or only drop marks ---- */

  lemma KeepWriteIssue(w: World, off: nat, data: seq<Byte>)
    requires Inv(w) && CanWriteIssue(w, data)
    ensures Inv(DoWriteIssue(w, off, data))
  {
  }

  lemma DistrustShape(w: World)
    requires Shape(w) && (CanWriteFail(w) || CanOwnStatFail(w))
    ensures Shape(DoDistrust(w))
  {
  }

  lemma DistrustBytes(w: World)
    requires Bytes(w) && (CanWriteFail(w) || CanOwnStatFail(w))
    ensures Bytes(DoDistrust(w))
  {
  }

  lemma DistrustClaims(w: World)
    requires Shape(w) && Claims(w) && Locked(w) && (CanWriteFail(w) || CanOwnStatFail(w))
    ensures Claims(DoDistrust(w)) && Locked(DoDistrust(w))
  {
  }

  lemma KeepDistrust(w: World)
    requires Inv(w) && (CanWriteFail(w) || CanOwnStatFail(w))
    ensures Inv(DoDistrust(w))
  {
    DistrustShape(w);
    DistrustBytes(w);
    DistrustClaims(w);
  }

  lemma KeepOwnNote(w: World, saved: bool)
    requires Inv(w) && CanOwnNote(w)
    ensures Inv(DoOwnNote(w, saved))
  {
  }

  lemma KeepTruncIssue(w: World, n: nat)
    requires Inv(w) && CanTruncIssue(w)
    ensures Inv(DoTruncIssue(w, n))
  {
  }

  lemma KeepTruncFail(w: World)
    requires Inv(w) && CanTruncFail(w)
    ensures Inv(DoTruncFail(w))
  {
  }

  lemma KeepBeginFill(w: World, p: nat)
    requires Inv(w) && CanBeginFill(w, p)
    ensures Inv(DoBeginFill(w, p))
  {
  }

  lemma KeepOriginRead(w: World, p: nat, buf: Extent)
    requires Inv(w) && CanOriginRead(w, p, buf)
    ensures Inv(DoHold(w, p, buf))
  {
  }

  lemma KeepWantHash(w: World, p: nat)
    requires Inv(w) && CanWantHash(w, p)
    ensures Inv(DoWantHash(w, p))
  {
  }

  lemma KeepPeerAdmit(w: World, p: nat, buf: Extent)
    requires Inv(w) && CanPeerAdmit(w, p, buf)
    ensures Inv(DoHold(w, p, buf))
  {
  }

  lemma KeepAbortFill(w: World, p: nat, saved: bool)
    requires Inv(w) && CanAbortFill(w, p)
    ensures Inv(DoAbortFill(w, p, saved))
  {
  }

  lemma KeepFillCheck(w: World, p: nat)
    requires Inv(w) && CanFillCheck(w, p)
    ensures Inv(DoFillCheck(w, p))
  {
  }

  lemma KeepHeal(w: World, p: nat, saved: bool)
    requires Inv(w) && CanHeal(w, p)
    ensures Inv(DoHeal(w, p, saved))
  {
  }

  lemma KeepLoadStart(w: World, t: nat)
    requires Inv(w) && CanLoadStart(w, t)
    ensures Inv(DoLoadStart(w, t))
  {
  }

  lemma KeepLoadFail(w: World, t: nat, remember: bool)
    requires Inv(w) && CanLoadFail(w, t)
    ensures Inv(DoLoadFail(w, t, remember))
  {
  }

  lemma KeepBeginXfer(w: World, r: nat)
    requires Inv(w) && CanBeginXfer(w, r)
    ensures Inv(DoBeginXfer(w, r))
  {
  }

  lemma KeepObserve(w: World, r: nat, p: nat)
    requires Inv(w) && CanObserve(w, r, p)
    ensures Inv(DoObserve(w, r, p))
  {
  }

  lemma KeepEndXfer(w: World, r: nat)
    requires Inv(w) && r in w.readers
    ensures Inv(DoEndXfer(w, r))
  {
  }

  lemma KeepRawBegin(w: World)
    requires Inv(w) && true
    ensures Inv(w.(raw := w.raw + 1))
  {
  }

  lemma KeepRawEnd(w: World)
    requires Inv(w) && w.raw > 0
    ensures Inv(w.(raw := w.raw - 1))
  {
  }

  lemma PunchSaveShape(w: World, p: nat, durable: bool, saved: bool)
    requires Shape(w) && CanPunchSave(w, p)
    ensures Shape(DoPunchSave(w, p, durable, saved))
  {
  }

  lemma PunchSaveBytes(w: World, p: nat, durable: bool, saved: bool)
    requires Inv(w) && CanPunchSave(w, p)
    ensures Bytes(DoPunchSave(w, p, durable, saved))
  {
  }

  lemma PunchSaveClaims(w: World, p: nat, durable: bool, saved: bool)
    requires Inv(w) && CanPunchSave(w, p)
    ensures Claims(DoPunchSave(w, p, durable, saved))
  {
  }

  lemma PunchSaveLocked(w: World, p: nat, durable: bool, saved: bool)
    requires Inv(w) && CanPunchSave(w, p)
    ensures Locked(DoPunchSave(w, p, durable, saved))
  {
  }

  lemma KeepPunchSave(w: World, p: nat, durable: bool, saved: bool)
    requires Inv(w) && CanPunchSave(w, p)
    ensures Inv(DoPunchSave(w, p, durable, saved))
  {
    PunchSaveShape(w, p, durable, saved);
    PunchSaveBytes(w, p, durable, saved);
    PunchSaveClaims(w, p, durable, saved);
    PunchSaveLocked(w, p, durable, saved);
  }

  lemma PunchCutShape(w: World, ok: bool, saved: bool)
    requires Inv(w) && w.lock.Punch?
    ensures Shape(DoPunchCut(w, ok, saved))
  {
  }

  lemma PunchCutHonest(w: World, ok: bool, saved: bool)
    requires Inv(w) && w.lock.Punch?
    ensures var v := DoPunchCut(w, ok, saved); Honest(v.ps, v.e.size, v.e.bits, v.e.cache, OriginOf(v))
    ensures var v := DoPunchCut(w, ok, saved); Readers(v.readers, v.e.cache, OriginOf(v))
  {
  }

  lemma PunchCutBytes(w: World, ok: bool, saved: bool)
    requires Inv(w) && w.lock.Punch?
    ensures Bytes(DoPunchCut(w, ok, saved))
  {
    PunchCutHonest(w, ok, saved);
    PunchCutCrashSafe(w, ok, saved);
  }

  lemma PunchCutCrashSafe(w: World, ok: bool, saved: bool)
    requires Inv(w) && w.lock.Punch?
    ensures var v := DoPunchCut(w, ok, saved); CrashSafe(v.ps, v.e.sidecar, v.e.cache, v.exposed, OriginOf(v))
  {
  }

  lemma PunchCutFills(w: World, ok: bool, saved: bool)
    requires Inv(w) && w.lock.Punch?
    ensures var v := DoPunchCut(w, ok, saved);
      Fills(v.ps, v.fills, v.e.filling, v.e.writes, v.e.size, v.e.bits, OriginOf(v))
  {
    var v := DoPunchCut(w, ok, saved);
    forall p | p in v.fills
      ensures FillOk(v.ps, p, v.fills[p], v.e.filling[p], v.e.writes, v.e.size, v.e.bits, OriginOf(v))
    {
      assert FillOk(w.ps, p, w.fills[p], w.e.filling[p], w.e.writes, w.e.size, w.e.bits, OriginOf(w));
    }
  }

  lemma PunchCutClaims(w: World, ok: bool, saved: bool)
    requires Inv(w) && w.lock.Punch?
    ensures Claims(DoPunchCut(w, ok, saved))
  {
    PunchCutFills(w, ok, saved);
  }

  lemma PunchCutLocked(w: World, ok: bool, saved: bool)
    requires Inv(w) && w.lock.Punch?
    ensures Locked(DoPunchCut(w, ok, saved))
  {
  }

  lemma KeepPunchCut(w: World, ok: bool, saved: bool)
    requires Inv(w) && w.lock.Punch?
    ensures Inv(DoPunchCut(w, ok, saved))
  {
    PunchCutShape(w, ok, saved);
    PunchCutBytes(w, ok, saved);
    PunchCutClaims(w, ok, saved);
    PunchCutLocked(w, ok, saved);
  }

  lemma MergeShape(w: World, t: nat, m: Manifest)
    requires Shape(w) && t in w.loads && MergeFits(w, t, m)
    ensures Shape(DoLoadMerge(w, t, m))
  {
  }

  lemma MergeClaims(w: World, t: nat, m: Manifest)
    requires Inv(w) && FileMuFree(w) && t in w.loads && MergeFits(w, t, m)
    ensures Claims(DoLoadMerge(w, t, m))
  {
  }

  lemma MergeLocked(w: World, t: nat, m: Manifest)
    requires Inv(w) && FileMuFree(w) && t in w.loads
    ensures Bytes(DoLoadMerge(w, t, m)) && Locked(DoLoadMerge(w, t, m))
  {
  }

  /** A manifest merge keeps the invariant exactly when what it adds describes
      the object and the marked bytes. */
  lemma KeepLoadMerge(w: World, t: nat, m: Manifest)
    requires Inv(w) && FileMuFree(w) && t in w.loads
    ensures Inv(DoLoadMerge(w, t, m)) <==> MergeFits(w, t, m)
  {
    if MergeFits(w, t, m) {
      MergeShape(w, t, m);
      MergeClaims(w, t, m);
      MergeLocked(w, t, m);
    } else if Inv(DoLoadMerge(w, t, m)) {
      MergedFits(w, t, m);
    }
  }

  /** The pieces a manifest adds can take any, and it is in order: it fits. */
  lemma TakenDigest(w: World, t: nat, m: Manifest, p: nat)
    requires Inv(w) && TakesAny(w, m.identity.Some?) && Gridded(m) && PublishedOk(m, w.origin, w.oid)
    requires t in w.loads && ManifestFits(w.e, m, w.loads[t], w.ps)
    requires p in m.entries && p !in w.e.hashes
    ensures DigestFits(w, p, m.entries[p])
  {
    forall i | i in m.entries[p].of
      ensures PieceOf(i, w.ps) == p && i < w.e.size
      ensures if m.identity.Some? && w.e.id == w.oid then Matched(w, i) && AtByte(w.origin, i, m.entries[p].of[i])
              else Immune(w, i)
    {
      assert i in PieceBytes(p, w.e.size, w.ps);
    }
  }

  lemma AnyFits(w: World, t: nat, m: Manifest)
    requires Inv(w) && TakesAny(w, m.identity.Some?) && Gridded(m) && PublishedOk(m, w.origin, w.oid) && t in w.loads
    ensures MergeFits(w, t, m)
  {
    if ManifestFits(w.e, m, w.loads[t], w.ps) {
      forall p | p in m.entries && p !in w.e.hashes ensures DigestFits(w, p, m.entries[p]) {
        TakenDigest(w, t, m, p);
      }
    }
  }

  /** The manifests on the origin are in order, so a merge that the entry's state
      allows fits. */
  lemma OrderlyMergeFits(w: World, t: nat, m: Manifest)
    requires Inv(w) && CanLoadMerge(w, t, m) && Gridded(m) && TakesAny(w, m.identity.Some?)
    ensures MergeFits(w, t, m)
  {
    AgeIsNothing(m, false, w.origin, w.oid);
    AnyFits(w, t, m);
  }

  lemma KeepOrderlyMerge(w: World, t: nat, m: Manifest)
    requires Inv(w) && CanLoadMerge(w, t, m)
    requires MergeFits(w, t, m) || (Gridded(m) && TakesAny(w, m.identity.Some?))
    ensures Inv(DoLoadMerge(w, t, m))
  {
    if !MergeFits(w, t, m) {
      OrderlyMergeFits(w, t, m);
    }
    KeepLoadMerge(w, t, m);
  }

  lemma MergedFits(w: World, t: nat, m: Manifest)
    requires FileMuFree(w) && t in w.loads && Inv(DoLoadMerge(w, t, m))
    ensures MergeFits(w, t, m)
  {
    var v := DoLoadMerge(w, t, m);
    if ManifestFits(w.e, m, w.loads[t], w.ps) {
      forall p | p in m.entries && p !in w.e.hashes ensures DigestFits(w, p, m.entries[p]) {
        assert v.e.hashes[p] == m.entries[p] && Agrees(v.e.hashes[p].of, OriginOf(v));
      }
    }
  }

  /* ---- every step, every run ---- */

  /** Steps of a local write. */
  predicate IsWriteStep(a: Action) {
    a.WriteIssue? || a.WriteTear? || a.WriteLand? || a.WriteFail? || a.OwnStat? ||
    a.OwnRetry? || a.OwnGrow? || a.OwnStatFail?
  }

  /** Steps of its cache copy, and of a truncate. */
  predicate IsCopyStep(a: Action) {
    a.CopyPwrite? || a.CopyEnd? || a.OwnNote? || a.TruncIssue? || a.TruncLand? ||
    a.TruncFail? || a.TruncApply?
  }

  /** Steps of a fill. */
  predicate IsFillStep(a: Action) {
    a.BeginFill? || a.OriginRead? || a.WantHash? || a.PeerAdmit? || a.AbortFill? ||
    a.FillCheck? || a.FillPwrite? || a.FillEnd?
  }

  /** Steps of cull, self-heal and manifest loads. */
  predicate IsCullStep(a: Action) {
    a.PunchSave? || a.PunchCut? || a.Heal? || a.LoadStart? || a.LoadFail? ||
    a.LoadMerge?
  }

  /** The looks after a write; the other write steps go to the origin. */
  predicate IsOwnLook(a: Action) { a.OwnStat? || a.OwnRetry? || a.OwnGrow? || a.OwnStatFail? }

  lemma WriteStepKeepsInv(w: World, a: Action)
    requires Inv(w) && Enabled(w, a) && Orderly(w, a) && IsWriteStep(a) && !IsOwnLook(a)
    ensures Inv(Apply(w, a))
  {
    match a
    case WriteIssue(off, data) => KeepWriteIssue(w, off, data);
    case WriteTear(after, id) => KeepWriteTear(w, after, id);
    case WriteLand(id) => KeepWriteLand(w, id);
    case WriteFail => KeepDistrust(w);
    case _ =>
  }

  lemma OwnLookKeepsInv(w: World, a: Action)
    requires Inv(w) && Enabled(w, a) && Orderly(w, a) && IsOwnLook(a)
    ensures Inv(Apply(w, a))
  {
    match a
    case OwnStat(size, id, deferred, cut, saved) => KeepOwnStat(w, size, id, deferred, cut, saved);
    case OwnRetry(size, id, cut, saved) => KeepOwnRetry(w, size, id, cut, saved);
    case OwnGrow(deferred, saved) => KeepOwnGrow(w, deferred, saved);
    case OwnStatFail => KeepDistrust(w);
    case _ =>
  }

  lemma CopyStepKeepsInv(w: World, a: Action)
    requires Inv(w) && Enabled(w, a) && IsCopyStep(a)
    ensures Inv(Apply(w, a))
  {
    match a
    case CopyPwrite(keep) => KeepCopyPwrite(w, keep);
    case CopyEnd(saved) => KeepCopyEnd(w, saved);
    case OwnNote(saved) => KeepOwnNote(w, saved);
    case TruncIssue(n) => KeepTruncIssue(w, n);
    case TruncLand(id) => KeepTruncLand(w, id);
    case TruncFail => KeepTruncFail(w);
    case TruncApply(resized, cut, saved) => KeepTruncApply(w, resized, cut, saved);
    case _ =>
  }

  /** Steps that bring a fill its bytes; the others let them land. */
  predicate IsHydration(a: Action) { a.BeginFill? || a.OriginRead? || a.WantHash? || a.PeerAdmit? }

  lemma HydrationKeepsInv(w: World, a: Action)
    requires Inv(w) && Enabled(w, a) && IsHydration(a)
    ensures Inv(Apply(w, a))
  {
    match a
    case BeginFill(p) => KeepBeginFill(w, p);
    case OriginRead(p, buf) => KeepOriginRead(w, p, buf);
    case WantHash(p) => KeepWantHash(w, p);
    case PeerAdmit(p, buf) => KeepPeerAdmit(w, p, buf);
    case _ =>
  }

  lemma LandingKeepsInv(w: World, a: Action)
    requires Inv(w) && Enabled(w, a) && IsFillStep(a) && !IsHydration(a)
    ensures Inv(Apply(w, a))
  {
    match a
    case AbortFill(p, saved) => KeepAbortFill(w, p, saved);
    case FillCheck(p) => KeepFillCheck(w, p);
    case FillPwrite(keep) => KeepFillPwrite(w, keep);
    case FillEnd(saved) => KeepFillEnd(w, saved);
    case _ =>
  }

  lemma LoadStepKeepsInv(w: World, a: Action)
    requires Inv(w) && Enabled(w, a) && Orderly(w, a) && (a.LoadStart? || a.LoadFail? || a.LoadMerge?)
    ensures Inv(Apply(w, a))
  {
    match a
    case LoadStart(t) => KeepLoadStart(w, t);
    case LoadFail(t, remember) => KeepLoadFail(w, t, remember);
    case LoadMerge(t, m) => KeepOrderlyMerge(w, t, m);
    case _ =>
  }

  /** Steps of other nodes, publishing, and torn saves. */
  predicate IsOriginStep(a: Action) { a.TearSidecar? || a.Publish? || a.ForeignPublish? || a.ForeignRewrite? }

  lemma OriginStepKeepsInv(w: World, a: Action)
    requires Inv(w) && Enabled(w, a) && Orderly(w, a) && IsOriginStep(a)
    ensures Inv(Apply(w, a))
  {
    match a
    case TearSidecar(bare) => KeepTearSidecar(w, bare);
    case Publish(n) => KeepPublish(w, n);
    case ForeignPublish(m) => KeepForeignPublish(w, m);
    case ForeignRewrite(after, id) => KeepForeignRewrite(w, after, id);
    case _ =>
  }

  lemma PunchStepKeepsInv(w: World, a: Action)
    requires Inv(w) && Enabled(w, a) && (a.PunchSave? || a.PunchCut?)
    ensures Inv(Apply(w, a))
  {
    match a
    case PunchSave(p, durable, saved) => KeepPunchSave(w, p, durable, saved);
    case PunchCut(ok, saved) => KeepPunchCut(w, ok, saved);
    case _ =>
  }

  lemma OtherStepKeepsInv(w: World, a: Action)
    requires Inv(w) && Enabled(w, a) && Orderly(w, a)
    requires !IsWriteStep(a) && !IsCopyStep(a) && !IsFillStep(a) && !IsCullStep(a) && !IsOriginStep(a)
    ensures Inv(Apply(w, a))
  {
    match a
    case Stat(size, id, cut, saved) => KeepStat(w, size, id, cut, saved);
    case BeginXfer(r) => KeepBeginXfer(w, r);
    case Observe(r, p) => KeepObserve(w, r, p);
    case EndXfer(r) => KeepEndXfer(w, r);
    case RawBegin => KeepRawBegin(w);
    case RawEnd => KeepRawEnd(w);
    case Crash(look) => KeepCrash(w, look);
    case _ =>
  }

  /** Any orderly step of the daemon or of its environment keeps the invariant. */
  lemma StepKeepsInv(w: World, a: Action)
    requires Inv(w) && Enabled(w, a) && Orderly(w, a)
    ensures Inv(Apply(w, a))
  {
    if IsOwnLook(a) {
      OwnLookKeepsInv(w, a);
    } else if IsWriteStep(a) {
      WriteStepKeepsInv(w, a);
    } else if IsCopyStep(a) {
      CopyStepKeepsInv(w, a);
    } else if IsFillStep(a) {
      if IsHydration(a) {
        HydrationKeepsInv(w, a);
      } else {
        LandingKeepsInv(w, a);
      }
    } else if IsCullStep(a) {
      if a.Heal? {
        KeepHeal(w, a.p, a.saved);
      } else if a.PunchSave? || a.PunchCut? {
        PunchStepKeepsInv(w, a);
      } else {
        LoadStepKeepsInv(w, a);
      }
    } else if IsOriginStep(a) {
      OriginStepKeepsInv(w, a);
    } else {
      OtherStepKeepsInv(w, a);
    }
  }

  lemma {:induction false} RunKeepsInv(w: World, acts: seq<Action>)
    requires Inv(w) && Runs(w, acts) && OrderlyRun(w, acts)
    ensures Inv(After(w, acts))
    decreases |acts|
  {
    if acts == [] {
    } else {
      StepKeepsInv(w, acts[0]);
      RunKeepsInv(Apply(w, acts[0]), acts[1..]);
    }
  }
}
