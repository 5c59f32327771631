/** `Store.Cached` as the object src/store.zig and src/fuse_fs.zig update in
    place. Each method is one locked section, run step by step, and is proved to
    turn `View()` into what the function of the same section in Entry.dfy says.
    What the system answers (did the pwrite land, was the sidecar saved, was
    memory to be had) comes in as parameters. */
module CachedEntry {
  import opened Pieces
  import opened Entries
  import opened EntryLaws
  import opened Bitfields

  datatype FillClaim = Filled | Raced | Taken | Len(len: nat)

  /** The digest of one whole piece of a write buffer. */
  function PieceDigest(off: nat, data: seq<Byte>, p: nat, ps: Grid): Digest {
    Blake3(InPiece(Extend(off, data), p, ps))
  }

  /** A fully covered piece is one slice of the buffer. */
  lemma SliceIsPiece(off: nat, data: seq<Byte>, p: nat, ps: Grid)
    requires FullCover(off, |data|, ps).Has(p)
    ensures off <= Offset(p, ps) && Offset(p, ps) + ps <= off + |data|
    ensures var at := Offset(p, ps) - off;
            Extend(Offset(p, ps), data[at..at + ps]) == InPiece(Extend(off, data), p, ps)
  {
    var lo, hi := Offset(p, ps), Offset(p, ps) + ps - 1;
    assert p < MAX_PIECES;
    FullCoverExact(off, |data|, p, ps);
    PieceRange(lo, p, ps);
    PieceRange(hi, p, ps);
    var at := lo - off;
    var x, y := Extend(lo, data[at..at + ps]), InPiece(Extend(off, data), p, ps);
    forall i: nat ensures i in x <==> i in y { PieceRange(i, p, ps); }
    assert x.Keys == y.Keys;
    forall i | i in x ensures x[i] == y[i] { assert InRange(off, |data|, i); }
  }

  /** The two loops over the boundary pieces cover what is touched but not full. */
  lemma BoundaryIs(c: Span, s: Span, p: nat)
    ensures p in Between(s.start, Min(s.end, c.start)) + Between(if s.start < c.end then c.end else s.start, s.end)
            <==> s.Has(p) && !c.Has(p)
  {
  }

  /** `was` with the pieces of c from `from` on rehashed, less the boundary pieces of
      s, is what the whole copy leaves: the pieces before `from` had their digest. */
  lemma DigestsMeet(was: map<nat, Digest>, r: map<nat, Digest>, h: map<nat, Digest>, g: map<nat, Digest>,
                    c: Span, s: Span, from: nat, digest: nat -> Digest)
    requires c.start <= from && forall p :: c.start <= p < from ==> p in was && was[p] == digest(p)
    requires forall p :: p in r <==> p in was || from <= p < c.end
    requires forall p :: p in r ==> r[p] == if from <= p < c.end then digest(p) else was[p]
    requires h == r - Between(s.start, Min(s.end, c.start)) - Between(if s.start < c.end then c.end else s.start, s.end)
    requires forall p :: p in g <==> c.Has(p) || (p in was && !s.Has(p))
    requires forall p :: p in g ==> g[p] == if c.Has(p) then digest(p) else if p in was then was[p] else g[p]
    ensures h == g
  {
    forall p: nat ensures p in h <==> p in g {
      BoundaryIs(c, s, p);
    }
    assert h.Keys == g.Keys;
  }

  /** Scan, mark loop and the two boundary loops together give `CopyHashes`. */
  lemma CopyHashesMeet(e: Entry, h: map<nat, Digest>, off: nat, data: seq<Byte>, from: nat, ps: Grid)
    requires FullCover(off, |data|, ps).start <= from
    requires var c := FullCover(off, |data|, ps);
      forall p :: c.start <= p < from ==> p in e.hashes && e.hashes[p] == PieceDigest(off, data, p, ps)
    requires var c, s := FullCover(off, |data|, ps), Cover(off, |data|, e.size, ps);
      h == Rehashed(e.hashes, off, data, from, c.end, ps)
           - Between(s.start, Min(s.end, c.start)) - Between(if s.start < c.end then c.end else s.start, s.end)
    ensures h == CopyHashes(e, off, data, ps)
  {
    var c := FullCover(off, |data|, ps);
    RehashedExact(e.hashes, off, data, from, c.end, ps);
    DigestsMeet(e.hashes, Rehashed(e.hashes, off, data, from, c.end, ps), h, CopyHashes(e, off, data, ps), c,
                Cover(off, |data|, e.size, ps), from, (p: nat) => PieceDigest(off, data, p, ps));
  }

  /** Seconds an entry must have been idle before a piece of it may be punched. */
  const RECENCY: int := 10

  function Between(lo: nat, hi: nat): set<nat> { CoverSet(Span(lo, hi)) }

  /** The marks a field of n bits takes of [lo, hi). */
  function Capped(lo: nat, hi: nat, n: nat): set<nat> { set p | p in Between(lo, hi) && p < n }

  lemma OneMore(lo: nat, i: nat, n: nat)
    requires lo <= i
    ensures Capped(lo, i + 1, n) == Capped(lo, i, n) + (if i < n then {i} else {})
  {
  }

  lemma OneLess(marks: set<nat>, digests: map<nat, Digest>, lo: nat, i: nat)
    requires lo <= i
    ensures marks - Between(lo, i + 1) == marks - Between(lo, i) - {i}
    ensures digests - Between(lo, i + 1) == digests - Between(lo, i) - {i}
  {
  }

  lemma CappedJoin(a: set<nat>, b: set<nat>, c: set<nat>)
    ensures a + b + c == a + (b + c)
  {
  }

  /** The pieces the scan skipped are marked, so marking the rest marks all. */
  lemma AlreadyMarked(marks: set<nat>, c: Span, from: nat, n: nat)
    requires c.start <= from && forall p :: c.start <= p < from ==> p in marks
    ensures marks + Capped(from, c.end, n) == marks + (set p | p in CoverSet(c) && p < n)
  {
  }

  /** The digests after the mark loop ran from `from` to `to`. */
  function Rehashed(h: map<nat, Digest>, off: nat, data: seq<Byte>, from: nat, to: nat, ps: Grid): map<nat, Digest> {
    if to <= from then h
    else Rehashed(h, off, data, from, to - 1, ps)[to - 1 := PieceDigest(off, data, to - 1, ps)]
  }

  lemma RehashedNext(h: map<nat, Digest>, off: nat, data: seq<Byte>, from: nat, i: nat, ps: Grid)
    requires from <= i
    ensures Rehashed(h, off, data, from, i + 1, ps) ==
            Rehashed(h, off, data, from, i, ps)[i := PieceDigest(off, data, i, ps)]
  {
  }

  lemma {:induction false} RehashedExact(h: map<nat, Digest>, off: nat, data: seq<Byte>, from: nat, to: nat, ps: Grid)
    ensures var g := Rehashed(h, off, data, from, to, ps);
      && (forall p :: p in g <==> p in h || from <= p < to)
      && (forall p :: p in g ==> g[p] == if from <= p < to then PieceDigest(off, data, p, ps) else h[p])
  {
    if from < to {
      RehashedExact(h, off, data, from, to - 1, ps);
    }
  }

  /** Manifest entries as a map; an index listed twice keeps its first digest. */
  function Table(entries: seq<(nat, Digest)>): map<nat, Digest> {
    if entries == [] then map[]
    else
      var t, last := Table(entries[..|entries| - 1]), entries[|entries| - 1];
      if last.0 in t then t else t[last.0 := last.1]
  }

  /** The pieces of a range are marked, seen from its bytes. */
  lemma RangeIsPieces(off: nat, n: nat, size: nat, marks: set<nat>, ps: Grid)
    requires forall p :: p in marks ==> p < MAX_PIECES
    ensures (Min(off + n, size) <= TrackedEnd(size, ps) || n == 0 || off >= size) &&
            (forall p: nat :: Cover(off, n, size, ps).Has(p) ==> p in marks)
            <==> forall i: nat {:trigger PieceOf(i, ps)} :: off <= i < off + n && i < size ==> PieceOf(i, ps) in marks
  {
    var c := Cover(off, n, size, ps);
    if n != 0 && off < size {
      var last := Min(off + n, size) - 1;
      TrackedEndExact(last, size, ps);
      if forall i: nat {:trigger PieceOf(i, ps)} :: off <= i < off + n && i < size ==> PieceOf(i, ps) in marks {
        assert PieceOf(last, ps) in marks;
        DivCeilBound(size, PieceOf(last, ps), ps);
        PieceRange(last, PieceOf(last, ps), ps);
        forall p: nat | c.Has(p) ensures p in marks { var i := CoverWitness(off, n, size, p, ps); }
      } else if last < TrackedEnd(size, ps) {
        var i: nat :| off <= i < off + n && i < size && PieceOf(i, ps) !in marks;
        PieceMonotone(i, last, ps);
        CoverHolds(off, n, size, i, ps);
      }
    }
  }

  class Cached {
    const ps: Grid
    var size: nat
    var bits: Bitfield
    ghost var storage: nat      // how many buffers the field has had
    var cache: Extent
    var hashes: map<nat, Digest>
    var writes: nat
    var filling: map<nat, nat>
    var id: OriginId
    var manifestSize: Option<nat>
    var loading: bool
    var sidecar: Option<Sidecar>
    var xfer: nat

    ghost predicate Valid() reads this, bits, bits.bytes { bits.Valid() }

    ghost function View(): Entry reads this, bits, bits.bytes {
      Entry(size, bits.nbits, bits.Marks(), storage, cache, hashes, writes, filling, id, manifestSize, loading, sidecar)
    }

    /** The entry `getIdentified` builds on a miss, from what is on disk. */
    constructor (g: Grid, l: Look, disk: Option<Sidecar>, bytes: Extent)
      ensures Valid() && fresh(bits) && fresh(bits.bytes) && ps == g && xfer == 0
      ensures View() == Opened(disk, bytes, l, 0, g)
    {
      ps, size, id, sidecar, cache := g, l.size, LoadId(disk, l.size, g), disk, bytes;
      bits := new Bitfield(Count(l.size, g));
      storage, hashes, writes, filling, manifestSize, loading, xfer := 0, map[], 0, map[], None, false, 0;
      new;
      if disk.Some? {
        if Trusted(disk.value, l.size, l.id, g) { TakeMarks(disk.value.bits); } else { SaveBits(l.wiped); }
      }
      assert View() == Built(disk, bytes, l, 0, g);
      Reconcile(l.size, l.id, l.cut, l.saved);
    }

    method TakeMarks(marks: set<nat>)
      requires Valid() && bits.Marks() == {}
      modifies bits.bytes
      ensures Valid() && View() == old(View()).(bits := set p | p in marks && p < bits.nbits)
    {
      for p := 0 to bits.nbits
        invariant bits.Valid() && bits.Marks() == set q | q in marks && q < p
      {
        if p in marks { bits.Set(p); }
      }
    }

    /** The one buffer a transfer may be indexing is still the field's. */
    twostate predicate SameField()
      reads this, bits
    {
      bits == old(bits) && bits.bytes == old(bits.bytes)
    }

    /** ... or a swap put a new one in its place. */
    twostate predicate FieldOrFresh()
      reads this, bits
    {
      SameField() || (fresh(bits) && fresh(bits.bytes))
    }

    predicate XferBusy() reads this { xfer > 0 }

    method SaveBits(saved: bool)
      requires Valid()
      modifies this`sidecar
      ensures View() == Save(old(View()), saved)
    {
      if saved { sidecar := Some(Sidecar(size, bits.nbits, bits.Marks(), id)); }
    }

    method ClearHashes()
      requires Valid()
      modifies this`hashes, this`manifestSize
      ensures View() == Entries.ClearHashes(old(View()))
    {
      hashes, manifestSize := map[], None;
    }

    /** `truncateCacheFd`: the cut is refused under a transfer. */
    method TruncateCacheFd(n: nat, cut: bool)
      requires Valid()
      modifies this`cache
      ensures View() == CutCache(old(View()), n, cut && !XferBusy())
    {
      if !XferBusy() && cut { cache := Cut(cache, n); }
    }

    method SwapField(n: nat)
      requires Valid()
      modifies this`bits, this`storage
      ensures Valid() && View() == Swap(old(View()), n) && fresh(bits) && fresh(bits.bytes)
    {
      bits := new Bitfield(n);
      storage := storage + 1;
    }

    method DropWideningMark(saved: bool)
      requires Valid()
      modifies this`hashes, this`sidecar, bits.bytes
      ensures Valid() && View() == DropWidening(old(View()), saved, ps)
    {
      if size == 0 || size % ps == 0 { return; }
      var k := Min(PieceOf(size, ps), MAX_PIECES);
      var cleared := bits.Get(k);
      if cleared { bits.Clear(k); }
      hashes := hashes - {k};
      assert !cleared ==> bits.Marks() - {k} == bits.Marks();
      if cleared { SaveBits(saved); }
    }

    /** `growToLocked`; `got` says whether the bigger field could be allocated.
        Under a transfer the field stays where it is. */
    method GrowToLocked(end: nat, got: bool, saved: bool)
      requires Valid()
      modifies this, bits, bits.bytes
      ensures Valid() && View() == GrowTo(old(View()), end, XferBusy() || !got, saved, ps)
      // every byte of the longer file has a bit, and no bit is past it
      ensures end > old(size) && !XferBusy() && got ==> FieldFits(bits.nbits, size, ps)
      ensures Tidy(old(View()), ps) ==> GrowLaw(old(View()), end, XferBusy() || !got, saved, View(), ps)
      ensures xfer == old(xfer) && bits == old(bits) && (bits.bytes == old(bits.bytes) || fresh(bits.bytes))
      ensures XferBusy() ==> SameField()
    {
      ghost var e := View();
      if end > size {
        DropWideningMark(saved);
        if !XferBusy() { WidenField(Count(end, ps), got); }
        size := end;
      }
      GrowFits(e, end, saved, ps);
      if Tidy(e, ps) { GrowObeys(e, end, XferBusy() || !got, saved, ps); }
    }

    method WidenField(n: nat, got: bool)
      requires Valid()
      modifies this`storage, bits, bits.bytes
      ensures Valid() && View() == if got then Resize(old(View()), n) else old(View())
      ensures bits == old(bits) && (bits.bytes == old(bits.bytes) || fresh(bits.bytes))
    {
      ghost var was := bits.bytes;
      bits.Resize(n, got);
      if bits.bytes != was { storage := storage + 1; }
    }

    /** `reconcile` and the shrink of `cacheFillIdentified` share this wipe: in
        place under a transfer, a fresh field otherwise. */
    method WipeTo(n: nat, now: OriginId, cut: bool, saved: bool)
      requires Valid()
      modifies this, bits.bytes
      ensures Valid() && View() == Wipe(old(View()), n, now, XferBusy(), cut && !XferBusy(), saved, ps)
      ensures xfer == old(xfer) && (XferBusy() ==> SameField()) && FieldOrFresh()
    {
      ghost var e := View();
      if XferBusy() { bits.ClearAll(); } else { SwapField(Count(n, ps)); }
      assert View() == if XferBusy() then e.(bits := {}) else Swap(e, Count(n, ps));
      ResetState(n, now);
      TruncateCacheFd(n, cut);
      SaveBits(saved);
    }

    /** The scalar half of a wipe: size, generation, digests and identity. */
    method ResetState(n: nat, now: OriginId)
      requires Valid()
      modifies this`size, this`writes, this`id, this`hashes, this`manifestSize
      ensures View() == Entries.ClearHashes(old(View())).(size := n, writes := old(writes) + 1, id := now)
    {
      size := n;
      writes := writes + 1;
      ClearHashes();
      id := now;
    }

    method AdoptOriginId(now: OriginId, saved: bool)
      requires Valid()
      modifies this`id, this`sidecar
      ensures Valid() && View() == AdoptId(old(View()), now, saved)
    {
      if !now.known || id.known { return; }
      id := now;
      if bits.Marks() != {} { SaveBits(saved); }
    }

    method Reconcile(n: nat, now: OriginId, cut: bool, saved: bool)
      requires Valid()
      modifies this, bits.bytes
      ensures Valid() && View() == Entries.Reconcile(old(View()), n, now, XferBusy(), cut && !XferBusy(), saved, ps)
      // the same size and inode and no later mtime leave all as it is; anything else wipes
      ensures old(id).known && now.known ==>
                if n == old(size) && now.ino == old(id).ino &&
                   (now.sec < old(id).sec || (now.sec == old(id).sec && now.nsec <= old(id).nsec))
                then View() == old(View())
                else bits.Marks() == {} && hashes == map[] && writes == old(writes) + 1 && size == n && id == now
      ensures ReconcileLaw(old(View()), n, now, XferBusy(), cut && !XferBusy(), saved, View(), ps)
      ensures xfer == old(xfer) && (XferBusy() ==> SameField()) && FieldOrFresh()
    {
      ReconcileObeys(View(), n, now, XferBusy(), cut && !XferBusy(), saved, ps);
      if size == n && !ContentChanged(id, now) {
        AdoptOriginId(now, saved);
      } else {
        WipeTo(n, if now.known then now else id, cut, saved);
      }
    }

    /** The locked size step of `cacheFillIdentified`. */
    method FillSizeStep(end: nat, now: OriginId, got: bool, cut: bool, saved: bool) returns (skipped: bool)
      requires Valid()
      modifies this, bits, bits.bytes
      ensures Valid() && skipped == NoMemory(old(View()), end, XferBusy(), !got)
      ensures View() == FillSize(old(View()), end, now, XferBusy(), XferBusy() || !got, cut && !XferBusy(), saved, ps)
      ensures xfer == old(xfer) && (XferBusy() ==> SameField())
    {
      if end > size {
        GrowToLocked(end, got, saved);
      } else if end < size {
        if !XferBusy() && !got {
          bits.ClearAll();
          writes := writes + 1;
          ClearHashes();
          SaveBits(saved);
          return true;
        }
        WipeTo(end, id, cut, saved);
      }
      skipped := false;
      if now.known && (!id.known || ContentChanged(id, now)) { id := now; }
    }

    /** The busy arm of `mf_truncate`: clear in place, then `Bitfield.resize`. */
    method ResizeCleared(n: nat, got: bool)
      requires Valid()
      modifies this`storage, bits, bits.bytes
      ensures Valid() && bits == old(bits) && (bits.bytes == old(bits.bytes) || fresh(bits.bytes))
      ensures View() == if got then Resize(old(View()).(bits := {}), n) else old(View()).(bits := {})
      ensures bits.bytes == old(bits.bytes) <==> !got || BytesLen(n) == BytesLen(old(bits.nbits))
    {
      bits.ClearAll();
      ghost var was := bits.bytes;
      bits.Resize(n, got);
      if bits.bytes != was { storage := storage + 1; }
    }

    /** An empty field of the new length, if there is memory for it. */
    method ClearField(n: nat, got: bool)
      requires Valid()
      modifies this`bits, this`storage, bits, bits.bytes
      ensures Valid()
      ensures View() == if !got then old(View()).(bits := {})
                        else if XferBusy() then Resize(old(View()).(bits := {}), n) else Swap(old(View()), n)
      ensures XferBusy() ==> (SameField() <==> !got || BytesLen(n) == BytesLen(old(bits.nbits)))
    {
      if XferBusy() {
        ResizeCleared(n, got);
      } else if got {
        SwapField(n);
      } else {
        bits.ClearAll();
      }
    }

    /** `mf_truncate` on a live entry. */
    method Truncate(n: nat, resized: bool, cut: bool, saved: bool)
      requires Valid()
      modifies this, bits, bits.bytes
      ensures Valid()
      ensures View() == Entries.Truncate(old(View()), n, XferBusy(), resized, cut && !XferBusy(), saved, ps)
      ensures xfer == old(xfer)
      ensures XferBusy() ==>
        (SameField() <==> !resized || old(size) == n || BytesLen(Count(n, ps)) == BytesLen(old(bits.nbits)))
    {
      if size == n {
        TruncateCacheFd(n, cut);
        return;
      }
      ClearField(Count(n, ps), resized);
      ResetState(n, id);
      SaveBits(saved);
      TruncateCacheFd(n, cut);
    }

    /** `distrust`: the sidecar is unlinked under the same lock. */
    method Distrust()
      requires Valid()
      modifies this, bits.bytes
      ensures Valid() && View() == Entries.Distrust(old(View())) && xfer == old(xfer) && SameField()
      ensures View() == old(View()).(bits := {}, hashes := map[], manifestSize := None, sidecar := None,
                                     writes := old(writes) + 1)
    {
      sidecar := None;
      bits.ClearAll();
      writes := writes + 1;
      ClearHashes();
    }

    method NoteOriginId(now: OriginId, saved: bool)
      requires Valid()
      modifies this`id, this`sidecar
      ensures Valid()
      ensures View() == var n := NoteId(old(View()), now); Save(n, saved && n != old(View()))
    {
      if !now.known { return; }
      if !id.known || ContentChanged(id, now) {
        assert now != id;
        id := now;
        SaveBits(saved);
      }
    }

    /* ---- fills ---- */

    /** `beginFill` without its wait for another filler (`Taken`). */
    method BeginFill(p: nat) returns (claim: FillClaim)
      requires Valid()
      modifies this`filling
      ensures Valid()
      ensures claim == if p in bits.Marks() then Filled else if p in old(filling) then Taken
                       else if Pieces.Len(size, p, ps) == 0 then Raced else Len(Pieces.Len(size, p, ps))
      ensures View() == if claim.Len? then Claim(old(View()), p) else old(View())
    {
      var held := bits.Get(p);
      if held { return Filled; }
      if p in filling { return Taken; }
      filling := filling[p := writes];
      var n := Pieces.Len(size, p, ps);
      if n == 0 {
        filling := filling - {p};
        return Raced;
      }
      return Len(n);
    }

    method FinishPiece(p: nat, ok: bool, len: nat, hash: Digest, saved: bool)
      requires Valid()
      modifies this`filling, this`hashes, this`sidecar, bits.bytes
      ensures Valid() && View() == Entries.FinishPiece(old(View()), p, ok, len, hash, saved, ps)
    {
      var gen := if p in filling then Some(filling[p]) else None;
      filling := filling - {p};
      if ok && gen.Some? && gen.value == writes && Pieces.Len(size, p, ps) == len {
        bits.Set(p);
        hashes := hashes[p := hash];
        assert p >= bits.nbits ==> bits.Marks() + {} == bits.Marks();
      }
      SaveBits(saved);
    }

    /** `completeFill`: the check, the pwrite of the bytes in hand, of which
        `kept` reach the file, and the mark. */
    method CompleteFill(p: nat, data: seq<Byte>, kept: set<nat>, saved: bool)
      requires Valid()
      modifies this`cache, this`filling, this`hashes, this`sidecar, bits.bytes
      ensures Valid()
      ensures var e, buf := old(View()), Extend(Offset(p, ps), data);
        View() == if FillStands(e, p, |data|, ps)
                  then Entries.FinishPiece(e.(cache := e.cache + Restrict(buf, kept)), p, buf.Keys <= kept, |data|,
                                           Blake3(buf), saved, ps)
                  else Unclaim(e, p)
    {
      var held := bits.Get(p);
      var skip := held || p !in filling || filling[p] != writes || Pieces.Len(size, p, ps) != |data|;
      if skip {
        filling := filling - {p};
        return;
      }
      var buf := Extend(Offset(p, ps), data);
      cache := cache + Restrict(buf, kept);
      FinishPiece(p, buf.Keys <= kept, |data|, Blake3(buf), saved);
    }

    /** `healPiece`: the mark goes, bytes and digest stay. */
    method Heal(p: nat, saved: bool)
      requires Valid()
      modifies this`sidecar, bits.bytes
      ensures Valid()
      ensures View() == var e := old(View()); if p in e.bits then Save(e.(bits := e.bits - {p}), saved) else e
    {
      var held := bits.Get(p);
      if !held { return; }
      bits.Clear(p);
      SaveBits(saved);
    }

    /* ---- cull ---- */

    /** `punchPiece` on an entry last used `idle` seconds ago: clear, save durably,
        look for a reader again (`seen`), cut. Any failure puts the mark back. */
    method PunchPiece(p: nat, idle: int, pinned: bool, durable: bool, seen: bool, holed: bool, saved: bool)
      returns (punched: bool)
      requires Valid()
      modifies this`cache, this`sidecar, bits.bytes
      ensures Valid()
      ensures punched <==> idle >= RECENCY && !pinned && p !in filling && !XferBusy() && p in old(bits.Marks()) &&
                           durable && !seen && holed
      ensures var e := old(View());
        if punched then
          && View() == e.(bits := e.bits - {p}, cache := e.cache - PieceBytes(p, e.size, ps), sidecar := sidecar)
          && sidecar == Some(Sidecar(e.size, e.nbits, e.bits - {p}, e.id))
        else View() == e.(sidecar := sidecar)
      ensures !punched && sidecar != old(sidecar) ==>
        sidecar.Some? && sidecar.value.size == size &&
        sidecar.value.bits in {old(bits.Marks()), old(bits.Marks()) - {p}}
    {
      punched := false;
      if idle < RECENCY || pinned || p in filling || XferBusy() { return; }
      var held := bits.Get(p);
      if !held { return; }
      ghost var marks := bits.Marks();
      bits.Clear(p);
      SaveBits(durable);
      if durable && !seen && holed {
        cache := cache - PieceBytes(p, size, ps);
        return true;
      }
      bits.Set(p);
      assert marks - {p} + {p} == marks;
      SaveBits(saved);
    }

    /* ---- the write-through ---- */

    /** The pwrite of `copyIntoCache`: refused under a transfer; `kept` is what
        reached the file of it. */
    method PwriteThrough(off: nat, data: seq<Byte>, kept: set<nat>) returns (copied: bool)
      requires Valid()
      modifies this`cache
      ensures Valid() && copied == (!XferBusy() && Extend(off, data).Keys <= kept)
      ensures View() == var e := old(View());
        if XferBusy() then e else e.(cache := e.cache + Restrict(Extend(off, data), kept))
    {
      if XferBusy() { return false; }
      var x := Extend(off, data);
      cache := cache + Restrict(x, kept);
      copied := x.Keys <= kept;
    }

    /** Digest of the buffer's part that is piece p. */
    method HashSlice(off: nat, data: seq<Byte>, p: nat) returns (h: Digest)
      requires FullCover(off, |data|, ps).Has(p)
      ensures h == PieceDigest(off, data, p, ps)
    {
      SliceIsPiece(off, data, p, ps);
      var at := Offset(p, ps) - off;
      h := Blake3(Extend(Offset(p, ps), data[at..at + ps]));
    }

    /** The retry scan: first piece of an aligned, fully marked range whose
        digest is not the one on record, and that digest. */
    method HashStart(off: nat, data: seq<Byte>) returns (from: nat, first: Option<Digest>)
      requires Valid()
      ensures var c := FullCover(off, |data|, ps);
        && c.start <= from
        && (from == c.end && c.start < c.end <==> AlreadyApplied(View(), off, data, ps))
        && (forall p :: c.start <= p < from ==>
              p in bits.Marks() && p in hashes && hashes[p] == PieceDigest(off, data, p, ps))
        && (first.Some? ==> c.Has(from) && first.value == PieceDigest(off, data, from, ps))
    {
      var c := FullCover(off, |data|, ps);
      from, first := c.start, None;
      if c.start < c.end && Offset(c.start, ps) == off && Offset(c.end, ps) - off == |data| {
        var all := bits.AllSet(c.start, c.end);
        if all {
          while from < c.end
            invariant c.start <= from <= c.end && first.None?
            invariant forall p :: c.start <= p < from ==> p in hashes && hashes[p] == PieceDigest(off, data, p, ps)
          {
            var h := HashSlice(off, data, from);
            if from !in hashes || hashes[from] != h {
              first := Some(h);
              break;
            }
            from := from + 1;
          }
        }
      }
    }

    method MarkNext(ghost marks: set<nat>, ghost from: nat, i: nat)
      requires Valid() && from <= i && bits.Marks() == marks + Capped(from, i, bits.nbits)
      modifies bits.bytes
      ensures Valid() && bits.Marks() == marks + Capped(from, i + 1, bits.nbits)
    {
      OneMore(from, i, bits.nbits);
      CappedJoin(marks, Capped(from, i, bits.nbits), if i < bits.nbits then {i} else {});
      bits.Set(i);
    }

    /** The digest the scan already took, or a new one. */
    method TakeHash(off: nat, data: seq<Byte>, i: nat, saved: Option<Digest>) returns (h: Digest)
      requires FullCover(off, |data|, ps).Has(i)
      requires saved.Some? ==> saved.value == PieceDigest(off, data, i, ps)
      ensures h == PieceDigest(off, data, i, ps)
    {
      if saved.Some? { return saved.value; }
      h := HashSlice(off, data, i);
    }

    /** Marks and digests of the fully covered pieces, from the scan's stop on. */
    method MarkCovered(off: nat, data: seq<Byte>, from: nat, first: Option<Digest>)
      requires Valid()
      requires FullCover(off, |data|, ps).start <= from
      requires first.Some? ==> first.value == PieceDigest(off, data, from, ps)
      modifies this`hashes, bits.bytes
      ensures Valid()
      ensures var to := FullCover(off, |data|, ps).end;
        && bits.Marks() == old(bits.Marks()) + Capped(from, to, bits.nbits)
        && hashes == Rehashed(old(hashes), off, data, from, to, ps)
    {
      var c := FullCover(off, |data|, ps);
      var i, saved := from, first;
      ghost var marks := bits.Marks();
      while i < c.end
        invariant from <= i && (i <= c.end || i == from)
        invariant saved.Some? ==> i == from && saved == first
        invariant bits.Valid() && bits.Marks() == marks + Capped(from, i, bits.nbits)
        invariant hashes == Rehashed(old(hashes), off, data, from, i, ps)
      {
        MarkNext(marks, from, i);
        var h := TakeHash(off, data, i, saved);
        saved := None;
        RehashedNext(old(hashes), off, data, from, i, ps);
        hashes := hashes[i := h];
        i := i + 1;
      }
    }

    /** Forget the digests in [from, to). */
    method DropHashes(from: nat, to: nat)
      requires Valid()
      modifies this`hashes
      ensures hashes == old(hashes) - Between(from, to)
    {
      var i := from;
      while i < to
        invariant from <= to ==> from <= i <= to
        invariant from > to ==> i == from
        invariant hashes == old(hashes) - Between(from, i)
      {
        hashes := hashes - {i};
        i := i + 1;
      }
    }

    method ClearNext(ghost marks: set<nat>, ghost digests: map<nat, Digest>, ghost from: nat, i: nat)
      requires Valid() && from <= i && bits.Marks() == marks - Between(from, i) && hashes == digests - Between(from, i)
      modifies this`hashes, bits.bytes
      ensures Valid() && bits.Marks() == marks - Between(from, i + 1) && hashes == digests - Between(from, i + 1)
    {
      OneLess(marks, digests, from, i);
      bits.Clear(i);
      hashes := hashes - {i};
    }

    /** The failure arm: every piece the write touches loses mark and digest. */
    method DropOverlap(off: nat, n: nat)
      requires Valid()
      modifies this`hashes, bits.bytes
      ensures Valid()
      ensures var gone := CoverSet(Cover(off, n, size, ps));
        bits.Marks() == old(bits.Marks()) - gone && hashes == old(hashes) - gone
    {
      var c := Cover(off, n, size, ps);
      var i := c.start;
      ghost var marks, digests := bits.Marks(), hashes;
      while i < c.end
        invariant c.start <= i && (i <= c.end || i == c.start)
        invariant Valid() && bits.Marks() == marks - Between(c.start, i) && hashes == digests - Between(c.start, i)
      {
        ClearNext(marks, digests, c.start, i);
        i := i + 1;
      }
      assert Between(c.start, i) == CoverSet(c);
    }

    /** The success arm. */
    method MarkWritten(off: nat, data: seq<Byte>, from: nat, first: Option<Digest>)
      requires Valid()
      requires FullCover(off, |data|, ps).start <= from
      requires first.Some? ==> first.value == PieceDigest(off, data, from, ps)
      requires forall p :: FullCover(off, |data|, ps).start <= p < from ==>
                 p in bits.Marks() && p in hashes && hashes[p] == PieceDigest(off, data, p, ps)
      modifies this`hashes, bits.bytes
      ensures Valid() && hashes == CopyHashes(old(View()), off, data, ps)
      ensures bits.Marks() == old(bits.Marks()) + (set p | p in CoverSet(FullCover(off, |data|, ps)) && p < bits.nbits)
    {
      ghost var e := View();
      var c, s := FullCover(off, |data|, ps), Cover(off, |data|, size, ps);
      MarkCovered(off, data, from, first);
      AlreadyMarked(e.bits, c, from, e.nbits);
      DropHashes(s.start, Min(s.end, c.start));
      DropHashes(if s.start < c.end then c.end else s.start, s.end);
      CopyHashesMeet(e, hashes, off, data, from, ps);
    }

    /** `copyIntoCache`. */
    method CopyIntoCache(off: nat, data: seq<Byte>, kept: set<nat>, saved: bool) returns (ok: bool)
      requires Valid()
      modifies this`cache, this`writes, this`hashes, this`sidecar, bits.bytes
      ensures Valid() && SameField()
      ensures var e, copied := old(View()), !XferBusy() && Extend(off, data).Keys <= kept;
        var w := if XferBusy() then e else e.(cache := e.cache + Restrict(Extend(off, data), kept));
        && View() == CopyMark(w, off, data, copied, saved, ps)
        && ok == (copied || AlreadyApplied(e, off, data, ps))
    {
      var copied := PwriteThrough(off, data, kept);
      var from, first := HashStart(off, data);
      var c := FullCover(off, |data|, ps);
      if c.start < c.end && from == c.end { return true; }
      writes := writes + 1;
      if copied {
        MarkWritten(off, data, from, first);
      } else {
        DropOverlap(off, |data|);
      }
      SaveBits(saved);
      return copied;
    }

    /* ---- lazy manifest load ---- */

    /** The claim half of `expectedHash`; `due` is the retry gate. */
    method ClaimManifest(due: bool) returns (claim: bool, gen: nat)
      requires Valid()
      modifies this`loading
      ensures Valid() && claim == (manifestSize != Some(size) && due && !old(loading)) && gen == writes
      ensures View() == if claim then old(View()).(loading := true) else old(View())
    {
      claim, gen := manifestSize != Some(size) && due && !loading, writes;
      if claim { loading := true; }
    }

    /** The end of `tryLoadManifest`: admission under the lock, then the entries
        fill the gaps. Every way out gives the claim back. */
    method MergeManifest(grid: Grid, fileSize: nat, entries: seq<(nat, Digest)>, identity: Option<OriginId>,
                         mtimeOld: bool, gen: nat)
      requires Valid()
      modifies this`hashes, this`manifestSize, this`loading
      ensures Valid()
      ensures View() == Entries.MergeManifest(old(View()),
              Manifest(grid, fileSize, Table(entries), identity, mtimeOld), gen, ps)
    {
      loading := false;
      if writes != gen { return; }
      if size != fileSize || ps != grid {
        manifestSize := Some(size);
        return;
      }
      if identity.Some? && id.known && !SameId(identity.value, id) { return; }
      if id.known && mtimeOld { return; }
      for k := 0 to |entries|
        invariant hashes == Table(entries[..k]) + old(hashes) && !loading
      {
        assert entries[..k + 1][..k] == entries[..k];
        var e := entries[k];
        if e.0 !in hashes { hashes := hashes[e.0 := e.1]; }
      }
      assert entries[..|entries|] == entries;
      manifestSize := Some(size);
    }

    /* ---- warm reads ---- */

    /** `rangeFilled`: a range is served warm exactly when every byte of it that
        the file has lies in a marked piece. */
    method RangeFilled(off: nat, n: nat) returns (filled: bool)
      requires Valid() && bits.nbits <= MAX_PIECES
      ensures filled <==> forall i: nat {:trigger PieceOf(i, ps)} ::
                            off <= i < off + n && i < size ==> PieceOf(i, ps) in bits.Marks()
    {
      RangeIsPieces(off, n, size, bits.Marks(), ps);
      if n != 0 && off < size && Min(off + n, size) > TrackedEnd(size, ps) { return false; }
      var c := Cover(off, n, size, ps);
      filled := bits.AllSet(c.start, c.end);
      assert filled <==> forall p: nat :: c.Has(p) ==> p in bits.Marks();
    }
  }
}
