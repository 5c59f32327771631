/** What each locked section does to an entry, told in bytes: which of them keep a
    mark, which pieces get a bit, what the digests cover. None of these laws uses the
    piece counts, covers or identity tests the sections are written with. */
module EntryLaws {
  import opened Pieces
  import opened Entries

  /* ---- the field ---- */

  predicate HoldsByte(p: nat, size: nat, ps: Grid) { exists i: nat {:trigger PieceOf(i, ps)} ::
      i < size && PieceOf(i, ps) == p }

  /** Every byte that a bit can name has one, and no bit is past the file. */
  predicate FieldFits(nbits: nat, size: nat, ps: Grid) {
    && (forall i: nat {:trigger PieceOf(i, ps)} :: i < size && PieceOf(i, ps) < MAX_PIECES ==> PieceOf(i, ps) < nbits)
    && nbits <= MAX_PIECES
    && (forall p: nat {:trigger HoldsByte(p, size, ps)} :: p < nbits ==> HoldsByte(p, size, ps))
  }

  lemma CountBits(size: nat, i: nat, ps: Grid)
    requires i < size && PieceOf(i, ps) < MAX_PIECES
    ensures PieceOf(i, ps) < Count(size, ps)
  {
    PieceRange(i, PieceOf(i, ps), ps);
    DivCeilBound(size, PieceOf(i, ps), ps);
  }

  lemma BitHoldsByte(size: nat, p: nat, ps: Grid)
    requires p < Count(size, ps)
    ensures HoldsByte(p, size, ps)
  {
    DivCeilBound(size, p, ps);
    PieceRange(Offset(p, ps), p, ps);
    assert Offset(p, ps) < size && PieceOf(Offset(p, ps), ps) == p;
  }

  lemma CountFits(size: nat, ps: Grid)
    ensures FieldFits(Count(size, ps), size, ps)
  {
    forall i: nat | i < size && PieceOf(i, ps) < MAX_PIECES ensures PieceOf(i, ps) < Count(size, ps) {
      CountBits(size, i, ps);
    }
    forall p: nat | p < Count(size, ps) ensures HoldsByte(p, size, ps) {
      BitHoldsByte(size, p, ps);
    }
  }

  /** Only one length does. */
  lemma FitsIsCount(nbits: nat, size: nat, ps: Grid)
    requires FieldFits(nbits, size, ps)
    ensures nbits == Count(size, ps)
  {
    if nbits < Count(size, ps) {
      BitHoldsByte(size, nbits, ps);
    } else if Count(size, ps) < nbits {
      assert HoldsByte(Count(size, ps), size, ps);
      DivCeilBound(size, Count(size, ps), ps);
      PieceRange(Offset(Count(size, ps), ps), Count(size, ps), ps);
      var i: nat :| i < size && PieceOf(i, ps) == Count(size, ps);
      CountBits(size, i, ps);
    }
  }

  /* ---- pieces and ranges, by their bytes ---- */

  /** The piece that a grow past `size` would lengthen. */
  predicate Straddles(p: nat, size: nat, ps: Grid) { size > 0 && PieceOf(size - 1, ps) == p == PieceOf(size, ps) }

  /** Every byte of the piece is in the range. */
  ghost predicate Within(p: nat, off: nat, n: nat, ps: Grid) {
    forall i: nat {:trigger PieceOf(i, ps)} :: PieceOf(i, ps) == p ==> InRange(off, n, i)
  }

  /** Some byte of the piece is in the range and in the file. */
  predicate Touched(p: nat, off: nat, n: nat, size: nat, ps: Grid) {
    exists i: nat {:trigger PieceOf(i, ps)} :: i < size && InRange(off, n, i) && PieceOf(i, ps) == p
  }

  /** Marks and digests are of pieces of the file. */
  predicate Tidy(e: Entry, ps: Grid) {
    && (forall p :: p in e.bits ==> p < e.nbits && p < MAX_PIECES && Offset(p, ps) < e.size)
    && (forall p :: p in e.hashes ==> p < MAX_PIECES && Offset(p, ps) < e.size)
  }

  /* ---- identities ---- */

  /** Another inode, or a later mtime of the same one. */
  predicate Detects(was: OriginId, now: OriginId) {
    && was.known && now.known
    && !(was.ino == now.ino && (now.sec < was.sec || (now.sec == was.sec && now.nsec <= was.nsec)))
  }

  /* ---- the sections ---- */

  /** A grow: the piece that would lengthen loses mark and digest, the others keep
      both, and every byte of the longer file has a bit, unless that was deferred. */
  ghost predicate GrowLaw(e: Entry, end: nat, deferred: bool, saved: bool, f: Entry, ps: Grid) {
    if end <= e.size then f == e
    else
      && f == e.(size := end, nbits := f.nbits, bits := f.bits, storage := f.storage, hashes := f.hashes,
                 sidecar := f.sidecar)
      && (forall p :: p in f.bits <==> p in e.bits && !Straddles(p, e.size, ps))
      && (forall p :: p in f.hashes <==> p in e.hashes && !Straddles(p, e.size, ps))
      && (forall p :: p in f.hashes ==> f.hashes[p] == e.hashes[p])
      && (if deferred then f.nbits == e.nbits && f.storage == e.storage
          else FieldFits(f.nbits, end, ps) && (f.storage == e.storage <==> (f.nbits + 7) / 8 == (e.nbits + 7) / 8))
      && f.sidecar == if saved && f.bits != e.bits then Some(Sidecar(e.size, e.nbits, f.bits, e.id)) else e.sidecar
  }

  /** A wipe: marks and digests go, the generation moves, and every byte of the new size
      has a bit, unless a transfer keeps the field. */
  ghost predicate WipeLaw(e: Entry, size: nat, id: OriginId, busy: bool, cut: bool, saved: bool, f: Entry, ps: Grid) {
    && f == e.(size := size, nbits := f.nbits, bits := {}, storage := f.storage, cache := f.cache, hashes := map[],
               writes := e.writes + 1, id := id, manifestSize := None, sidecar := f.sidecar)
    && (if busy then f.nbits == e.nbits && f.storage == e.storage
        else FieldFits(f.nbits, size, ps) && f.storage == e.storage + 1)
    && (forall i :: i in f.cache <==> i in e.cache && (cut ==> i < size))
    && (forall i :: i in f.cache ==> f.cache[i] == e.cache[i])
    && f.sidecar == if saved then Some(Sidecar(size, f.nbits, {}, id)) else e.sidecar
  }

  /** A stat: nothing new leaves the entry as it is, but for an identity it did not
      have; a new size or object wipes it. */
  ghost predicate ReconcileLaw(e: Entry, size: nat, id: OriginId, busy: bool, cut: bool, saved: bool, f: Entry,
                               ps: Grid)
  {
    if size == e.size && !Detects(e.id, id) then
      && f == e.(id := f.id, sidecar := f.sidecar)
      && f.id == (if e.id.known || !id.known then e.id else id)
      && f.sidecar == if saved && f.id != e.id && e.bits != {} then Some(Sidecar(size, e.nbits, e.bits, f.id))
                      else e.sidecar
    else WipeLaw(e, size, if id.known then id else e.id, busy, cut, saved, f, ps)
  }

  /** The size step of a write that ends at `end`. A shrink without memory for its field
      drops the marks only; otherwise a longer file grows, a shorter one is wiped, and
      an identity that the entry does not know or that is newer is adopted. */
  ghost predicate FillSizeLaw(e: Entry, end: nat, id: OriginId, busy: bool, deferred: bool, cut: bool, saved: bool,
                              f: Entry, ps: Grid)
  {
    if end < e.size && !busy && deferred then
      && f == e.(bits := {}, hashes := map[], writes := e.writes + 1, manifestSize := None, sidecar := f.sidecar)
      && f.sidecar == if saved then Some(Sidecar(e.size, e.nbits, {}, e.id)) else e.sidecar
    else
      && f.id == (if id.known && (!e.id.known || Detects(e.id, id)) then id else e.id)
      && (if end < e.size then WipeLaw(e, end, e.id, busy, cut, saved, f.(id := e.id), ps)
          else GrowLaw(e, end, deferred, saved, f.(id := e.id), ps))
  }

  /** A truncate: the recorded size follows, marks and digests go, the identity stays,
      and every byte of the new size has a bit if there was memory for the field. */
  ghost predicate TruncateLaw(e: Entry, n: nat, busy: bool, resized: bool, cut: bool, saved: bool, f: Entry, ps: Grid) {
    && (forall i :: i in f.cache <==> i in e.cache && (cut ==> i < n))
    && (forall i :: i in f.cache ==> f.cache[i] == e.cache[i])
    && if e.size == n then f == e.(cache := f.cache)
       else
         && f == e.(size := n, nbits := f.nbits, bits := {}, storage := f.storage, cache := f.cache, hashes := map[],
                    writes := e.writes + 1, manifestSize := None, sidecar := f.sidecar)
         && (if !resized then f.nbits == e.nbits && f.storage == e.storage else FieldFits(f.nbits, n, ps))
         && (resized ==> (f.storage == e.storage <==> busy && (f.nbits + 7) / 8 == (e.nbits + 7) / 8))
         && f.sidecar == if saved then Some(Sidecar(n, f.nbits, {}, e.id)) else e.sidecar
  }

  /** The write is a retry of one that is already applied: its bytes are whole pieces,
      each of them marked and known by the digest of what is written. */
  ghost predicate Retried(e: Entry, off: nat, data: seq<Byte>, ps: Grid) {
    && data != []
    && (forall i: nat {:trigger PieceOf(i, ps)} :: InRange(off, |data|, i) ==>
          && PieceOf(i, ps) < MAX_PIECES && Within(PieceOf(i, ps), off, |data|, ps)
          && PieceOf(i, ps) in e.bits && PieceOf(i, ps) in e.hashes
          && e.hashes[PieceOf(i, ps)].of == InPiece(Extend(off, data), PieceOf(i, ps), ps))
  }

  /** The marking half of a write-through. A retry changes nothing. A landed copy marks
      the pieces it holds whole, under its own digest, and takes the digest of those it
      touches otherwise; one that did not land takes mark and digest of all it touches. */
  ghost predicate CopyLaw(e: Entry, off: nat, data: seq<Byte>, copied: bool, saved: bool, f: Entry, ps: Grid) {
    if Retried(e, off, data, ps) then f == e
    else
      && f == e.(bits := f.bits, hashes := f.hashes, writes := e.writes + 1, sidecar := f.sidecar)
      && f.sidecar == (if saved then Some(Sidecar(e.size, e.nbits, f.bits, e.id)) else e.sidecar)
      && (forall p: nat :: p < MAX_PIECES ==>
            var whole, some := Within(p, off, |data|, ps), Touched(p, off, |data|, e.size, ps);
            && (p in f.bits <==> if copied then p in e.bits || (whole && p < e.nbits) else p in e.bits && !some)
            && (p in f.hashes <==> if copied then whole || (p in e.hashes && !some) else p in e.hashes && !some)
            && (p in f.hashes ==>
                  if copied && whole then f.hashes[p].of == InPiece(Extend(off, data), p, ps)
                  else p in e.hashes && f.hashes[p] == e.hashes[p]))
  }

  /** The end of a fill: the claim goes, and the piece is marked under the digest of what
      landed exactly if it landed, the claim is of this generation and the piece is as
      long as it was when claimed. */
  ghost predicate FinishLaw(e: Entry, p: nat, ok: bool, len: nat, hash: Digest, saved: bool, f: Entry, ps: Grid) {
    var stands := ok && p in e.filling && e.filling[p] == e.writes && |PieceBytes(p, e.size, ps)| == len;
    && f == e.(bits := f.bits, hashes := f.hashes, filling := f.filling, sidecar := f.sidecar)
    && f.filling == e.filling - {p}
    && f.bits == (if stands && p < e.nbits then e.bits + {p} else e.bits)
    && f.hashes == (if stands then e.hashes[p := hash] else e.hashes)
    && f.sidecar == if saved then Some(Sidecar(e.size, e.nbits, f.bits, e.id)) else e.sidecar
  }

  /** A manifest read at generation gen: its digests fill the gaps exactly if nothing was
      written since, it is of this size and grid, and names the entry's own identity,
      or none and its file is not older. */
  ghost predicate MergeLaw(e: Entry, m: Manifest, gen: nat, f: Entry, ps: Grid) {
    var same := m.size == e.size && m.ps == ps;
    var takes := gen == e.writes && same && !(e.id.known && m.mtimeOld) &&
      (m.identity.Some? && e.id.known ==>
         m.identity.value.known && m.identity.value.ino == e.id.ino && m.identity.value.sec == e.id.sec &&
         m.identity.value.nsec == e.id.nsec);
    && f == e.(hashes := f.hashes, manifestSize := f.manifestSize, loading := false)
    && f.manifestSize == (if gen == e.writes && (takes || !same) then Some(e.size) else e.manifestSize)
    && (forall p :: p in f.hashes <==> p in e.hashes || (takes && p in m.entries))
    && (forall p :: p in f.hashes ==> f.hashes[p] == if p in e.hashes then e.hashes[p] else m.entries[p])
  }

  /** A fill with its bytes in hand: they reach the file only under a claim of this
      generation, for an unmarked piece as long as it was; then its end follows. */
  ghost predicate FillLaw(e: Entry, p: nat, data: seq<Byte>, kept: set<nat>, saved: bool, f: Entry, ps: Grid) {
    var buf := Extend(Offset(p, ps), data);
    if p !in e.bits && p in e.filling && e.filling[p] == e.writes && |PieceBytes(p, e.size, ps)| == |data| then
      var w := e.(cache := f.cache);
      && FinishLaw(w, p, buf.Keys <= kept, |data|, Blake3(buf), saved, f, ps)
      && (forall i :: i in f.cache <==> i in e.cache || (i in buf && i in kept))
      && (forall i :: i in f.cache ==> f.cache[i] == if i in buf && i in kept then buf[i] else e.cache[i])
    else f == e.(filling := e.filling - {p})
  }

  /** The marks a restart takes from a sidecar: those that were saved for a piece of the
      file, exactly if the size is the same, no other or newer object shows, and the
      field is as long as the size calls for. */
  ghost predicate LoadLaw(sc: Sidecar, size: nat, id: OriginId, marks: set<nat>, ps: Grid) {
    forall p :: p in marks <==>
      && p in sc.bits && p < MAX_PIECES && HoldsByte(p, size, ps)
      && sc.size == size && !Detects(sc.id, id)
      && exists n: nat :: FieldFits(n, size, ps) && (n + 7) / 8 == (sc.nbits + 7) / 8
  }

  /* ---- each section obeys its law ---- */

  lemma Straddling(p: nat, size: nat, ps: Grid)
    requires p < MAX_PIECES
    ensures Straddles(p, size, ps) <==> WideningPiece(size, ps) == Some(p)
  {
    var q := PieceOf(size, ps);
    PieceRange(size, q, ps);
    assert size % ps == size - Offset(q, ps);
    if size > 0 {
      PieceRange(size - 1, q, ps);
    }
  }

  lemma GrowKeeps(e: Entry, end: nat, p: nat, ps: Grid)
    requires Offset(p, ps) < e.size < end && p < MAX_PIECES
    ensures p < Count(end, ps)
  {
    DivCeilBound(end, p, ps);
  }

  lemma DropObeys(e: Entry, saved: bool, ps: Grid)
    requires Tidy(e, ps)
    ensures var d := DropWidening(e, saved, ps);
      && d == e.(bits := d.bits, hashes := d.hashes, sidecar := d.sidecar)
      && (forall p :: p in d.bits <==> p in e.bits && !Straddles(p, e.size, ps))
      && (forall p :: p in d.hashes <==> p in e.hashes && !Straddles(p, e.size, ps))
      && (forall p :: p in d.hashes ==> d.hashes[p] == e.hashes[p])
      && d.sidecar == if saved && d.bits != e.bits then Some(Sidecar(e.size, e.nbits, d.bits, e.id)) else e.sidecar
  {
    forall p: nat | p in e.bits || p in e.hashes
      ensures Straddles(p, e.size, ps) <==> WideningPiece(e.size, ps) == Some(p)
    {
      Straddling(p, e.size, ps);
    }
  }

  lemma ResizeKeepsAll(d: Entry, n: nat)
    requires forall p :: p in d.bits ==> p < n
    ensures Resize(d, n) ==
            d.(nbits := n, storage := if (n + 7) / 8 == (d.nbits + 7) / 8 then d.storage else d.storage + 1)
  {
    assert (set p | p in d.bits && p < n) == d.bits;
  }

  lemma GrowObeys(e: Entry, end: nat, deferred: bool, saved: bool, ps: Grid)
    requires Tidy(e, ps)
    ensures GrowLaw(e, end, deferred, saved, GrowTo(e, end, deferred, saved, ps), ps)
  {
    if e.size < end {
      var d := DropWidening(e, saved, ps);
      DropObeys(e, saved, ps);
      CountFits(end, ps);
      forall p | p in d.bits ensures p < Count(end, ps) {
        GrowKeeps(e, end, p, ps);
      }
      ResizeKeepsAll(d, Count(end, ps));
      GrownObeys(e, end, deferred, saved, d, Count(end, ps), ps);
    }
  }

  lemma GrownObeys(e: Entry, end: nat, deferred: bool, saved: bool, d: Entry, n: nat, ps: Grid)
    requires e.size < end && FieldFits(n, end, ps)
    requires d == e.(bits := d.bits, hashes := d.hashes, sidecar := d.sidecar)
    requires forall p :: p in d.bits <==> p in e.bits && !Straddles(p, e.size, ps)
    requires forall p :: p in d.hashes <==> p in e.hashes && !Straddles(p, e.size, ps)
    requires forall p :: p in d.hashes ==> d.hashes[p] == e.hashes[p]
    requires d.sidecar == if saved && d.bits != e.bits then Some(Sidecar(e.size, e.nbits, d.bits, e.id)) else e.sidecar
    ensures var st := if (n + 7) / 8 == (e.nbits + 7) / 8 then e.storage else e.storage + 1;
      GrowLaw(e, end, deferred, saved, if deferred then d.(size := end) else d.(nbits := n, storage := st, size := end),
              ps)
  {
  }

  /** The field alone, of any entry. */
  lemma GrowFits(e: Entry, end: nat, saved: bool, ps: Grid)
    ensures e.size < end ==> FieldFits(GrowTo(e, end, false, saved, ps).nbits, end, ps)
    ensures GrowTo(e, end, false, saved, ps).size == if e.size < end then end else e.size
  {
    CountFits(end, ps);
  }

  lemma WipeObeys(e: Entry, size: nat, id: OriginId, busy: bool, cut: bool, saved: bool, ps: Grid)
    ensures WipeLaw(e, size, id, busy, cut, saved, Wipe(e, size, id, busy, cut, saved, ps), ps)
  {
    CountFits(size, ps);
  }

  lemma DetectsIs(was: OriginId, now: OriginId)
    ensures Detects(was, now) <==> ContentChanged(was, now)
  {
  }

  lemma ReconcileObeys(e: Entry, size: nat, id: OriginId, busy: bool, cut: bool, saved: bool, ps: Grid)
    ensures ReconcileLaw(e, size, id, busy, cut, saved, Reconcile(e, size, id, busy, cut, saved, ps), ps)
  {
    DetectsIs(e.id, id);
    if size != e.size || Detects(e.id, id) {
      WipeObeys(e, size, if id.known then id else e.id, busy, cut, saved, ps);
    }
  }

  lemma FillSizeObeys(e: Entry, end: nat, id: OriginId, busy: bool, deferred: bool, cut: bool, saved: bool, ps: Grid)
    requires Tidy(e, ps)
    ensures FillSizeLaw(e, end, id, busy, deferred, cut, saved,
                        FillSize(e, end, id, busy, deferred, cut, saved, ps), ps)
  {
    DetectsIs(e.id, id);
    if e.size <= end {
      GrowObeys(e, end, deferred, saved, ps);
    } else if !NoMemory(e, end, busy, deferred) {
      WipeObeys(e, end, e.id, busy, cut, saved, ps);
    }
  }

  lemma TruncateObeys(e: Entry, n: nat, busy: bool, resized: bool, cut: bool, saved: bool, ps: Grid)
    ensures TruncateLaw(e, n, busy, resized, cut, saved, Truncate(e, n, busy, resized, cut, saved, ps), ps)
  {
    CountFits(n, ps);
  }

  lemma CoverLaw(off: nat, n: nat, size: nat, p: nat, ps: Grid)
    requires p < MAX_PIECES
    ensures p in CoverSet(FullCover(off, n, ps)) <==> Within(p, off, n, ps)
    ensures p in CoverSet(Cover(off, n, size, ps)) <==> Touched(p, off, n, size, ps)
  {
    FullCoverExact(off, n, p, ps);
    CoverExact(off, n, size, p, ps);
  }

  lemma PieceLength(p: nat, size: nat, ps: Grid)
    ensures |PieceBytes(p, size, ps)| == Len(size, p, ps)
  {
    var lo, n := Offset(p, ps), Len(size, p, ps);
    forall i: nat ensures i in PieceBytes(p, size, ps) <==> lo <= i < lo + n {
      PieceRange(i, p, ps);
    }
    RunSize(PieceBytes(p, size, ps), lo, n);
  }

  lemma {:induction false} RunSize(s: set<nat>, lo: nat, n: nat)
    requires forall i: nat :: i in s <==> lo <= i < lo + n
    ensures |s| == n
  {
    if n > 0 {
      RunSize(s - {lo + n - 1}, lo, n - 1);
    } else {
      assert s == {};
    }
  }

  lemma FinishObeys(e: Entry, p: nat, ok: bool, len: nat, hash: Digest, saved: bool, ps: Grid)
    ensures FinishLaw(e, p, ok, len, hash, saved, FinishPiece(e, p, ok, len, hash, saved, ps), ps)
  {
    PieceLength(p, e.size, ps);
  }

  lemma FillObeys(e: Entry, p: nat, data: seq<Byte>, kept: set<nat>, saved: bool, ps: Grid)
    ensures var buf := Extend(Offset(p, ps), data);
      FillLaw(e, p, data, kept, saved,
              if FillStands(e, p, |data|, ps)
              then FinishPiece(e.(cache := e.cache + Restrict(buf, kept)), p, buf.Keys <= kept, |data|, Blake3(buf),
                               saved, ps)
              else Unclaim(e, p), ps)
  {
    var buf := Extend(Offset(p, ps), data);
    PieceLength(p, e.size, ps);
    FinishObeys(e.(cache := e.cache + Restrict(buf, kept)), p, buf.Keys <= kept, |data|, Blake3(buf), saved, ps);
  }

  lemma LoadObeys(sc: Sidecar, size: nat, id: OriginId, ps: Grid)
    ensures LoadLaw(sc, size, id, LoadBits(Some(sc), size, id, ps), ps)
  {
    DetectsIs(sc.id, id);
    CountFits(size, ps);
    if n: nat :| FieldFits(n, size, ps) && (n + 7) / 8 == (sc.nbits + 7) / 8 {
      FitsIsCount(n, size, ps);
    }
    forall p: nat | p < MAX_PIECES ensures p < Count(size, ps) <==> HoldsByte(p, size, ps) {
      if p < Count(size, ps) {
        BitHoldsByte(size, p, ps);
      }
      if HoldsByte(p, size, ps) {
        var i: nat :| i < size && PieceOf(i, ps) == p;
        CountBits(size, i, ps);
      }
    }
  }

  /** The identity an entry is built with, and its marks: the sidecar's if that has the
      size of the file and the stat shows nothing newer, otherwise the stat's and none. */
  lemma OpenedObeys(sc: Sidecar, cache: Extent, l: Look, storage: nat, ps: Grid)
    requires FieldFits(sc.nbits, sc.size, ps) && sc.id.known && l.id.known && forall p :: p in sc.bits ==> p < sc.nbits
    ensures var e := Opened(Some(sc), cache, l, storage, ps);
      && e.size == l.size && FieldFits(e.nbits, l.size, ps) && e.hashes == map[]
      && (if sc.size == l.size && !Detects(sc.id, l.id) then e.id == sc.id && e.bits == sc.bits
          else e.id == l.id && e.bits == {})
  {
    DetectsIs(sc.id, l.id);
    FitsIsCount(sc.nbits, sc.size, ps);
    CountFits(l.size, ps);
    OpenedIs(Some(sc), cache, l, storage, ps);
  }

  lemma MergeObeys(e: Entry, m: Manifest, gen: nat, ps: Grid)
    ensures MergeLaw(e, m, gen, MergeManifest(e, m, gen, ps), ps)
  {
  }

  /* ---- the retry ---- */

  lemma EdgeStart(off: nat, n: nat, ps: Grid)
    requires n > 0 && Within(PieceOf(off, ps), off, n, ps)
    ensures Offset(PieceOf(off, ps), ps) == off
  {
    var p := PieceOf(off, ps);
    PieceRange(off, p, ps);
    PieceRange(Offset(p, ps), p, ps);
  }

  lemma EdgeEnd(off: nat, n: nat, ps: Grid)
    requires n > 0 && Within(PieceOf(off + n - 1, ps), off, n, ps)
    ensures Offset(PieceOf(off + n - 1, ps) + 1, ps) == off + n
  {
    var q := PieceOf(off + n - 1, ps);
    PieceRange(off + n - 1, q, ps);
    PieceRange(Offset(q, ps) + ps - 1, q, ps);
    OffsetSteps(q, q + 1, ps);
    assert Offset(q + 1, ps) == Offset(q, ps) + ps;
  }

  lemma AtOffset(n: nat, p: nat, ps: Grid)
    requires n == Offset(p, ps)
    ensures PieceOf(n, ps) == p == DivCeil(n, ps)
  {
    PieceRange(n, p, ps);
    DivCeilBound(n, p, ps);
    if p > 0 {
      OffsetSteps(p - 1, p, ps);
      DivCeilBound(n, p - 1, ps);
    }
  }

  lemma CoverEdge(off: nat, n: nat, ps: Grid)
    requires n > 0 && PieceOf(off + n - 1, ps) < MAX_PIECES
    requires Within(PieceOf(off, ps), off, n, ps) && Within(PieceOf(off + n - 1, ps), off, n, ps)
    ensures var c := FullCover(off, n, ps);
      c.start < c.end && Offset(c.start, ps) == off && Offset(c.end, ps) - off == n
  {
    EdgeStart(off, n, ps);
    EdgeEnd(off, n, ps);
    PieceMonotone(off, off + n - 1, ps);
    AtOffset(off, PieceOf(off, ps), ps);
    AtOffset(off + n, PieceOf(off + n - 1, ps) + 1, ps);
  }

  lemma RetriedIs(e: Entry, off: nat, data: seq<Byte>, ps: Grid)
    ensures Retried(e, off, data, ps) <==> AlreadyApplied(e, off, data, ps)
  {
    if Retried(e, off, data, ps) {
      assert InRange(off, |data|, off) && InRange(off, |data|, off + |data| - 1);
      CoverEdge(off, |data|, ps);
      RetriedApplies(e, off, data, ps);
    }
    if AlreadyApplied(e, off, data, ps) {
      AppliedRetries(e, off, data, ps);
    }
  }

  lemma RetriedApplies(e: Entry, off: nat, data: seq<Byte>, ps: Grid)
    requires Retried(e, off, data, ps)
    ensures forall p :: FullCover(off, |data|, ps).Has(p) ==>
              p in e.bits && p in e.hashes && e.hashes[p] == Blake3(InPiece(Extend(off, data), p, ps))
  {
    forall p: nat | FullCover(off, |data|, ps).Has(p)
      ensures p in e.bits && p in e.hashes && e.hashes[p] == Blake3(InPiece(Extend(off, data), p, ps))
    {
      FullCoverExact(off, |data|, p, ps);
      PieceRange(Offset(p, ps), p, ps);
      assert InRange(off, |data|, Offset(p, ps));
    }
  }

  lemma AppliedRetries(e: Entry, off: nat, data: seq<Byte>, ps: Grid)
    requires AlreadyApplied(e, off, data, ps)
    ensures Retried(e, off, data, ps)
  {
    forall i: nat | InRange(off, |data|, i)
      ensures PieceOf(i, ps) < MAX_PIECES && Within(PieceOf(i, ps), off, |data|, ps)
      ensures FullCover(off, |data|, ps).Has(PieceOf(i, ps))
    {
      AlignedCover(off, |data|, i, ps);
      FullCoverExact(off, |data|, PieceOf(i, ps), ps);
    }
  }

  lemma CopyObeys(e: Entry, off: nat, data: seq<Byte>, copied: bool, saved: bool, ps: Grid)
    ensures CopyLaw(e, off, data, copied, saved, CopyMark(e, off, data, copied, saved, ps), ps)
  {
    RetriedIs(e, off, data, ps);
    forall p: nat | p < MAX_PIECES
      ensures p in CoverSet(FullCover(off, |data|, ps)) <==> Within(p, off, |data|, ps)
      ensures p in CoverSet(Cover(off, |data|, e.size, ps)) <==> Touched(p, off, |data|, e.size, ps)
    {
      CoverLaw(off, |data|, e.size, p, ps);
    }
  }
}
