/** Piece arithmetic of src/piece.zig: a file is cut into pieces of `ps` bytes
    and every rule about pieces is stated about the byte positions in them. */
module Pieces {
  type Byte = b: int | 0 <= b < 256
  type Grid = g: nat | 0 < g witness 1

  /** Bytes at absolute file offsets: a buffer together with where it belongs. */
  type Extent = map<nat, Byte>

  datatype Option<+T> = None | Some(value: T)

  /** Half-open piece interval, the shape `cover` and `fullCover` answer in. */
  datatype Span = Span(start: nat, end: nat) {
    predicate Has(p: nat) { start <= p < end }
  }

  /** `std.math.maxInt(u32)`: no bit names a piece at or past this index. */
  const MAX_PIECES: nat := 0xFFFF_FFFF

  function Min(a: nat, b: nat): nat { if a < b then a else b }

  function PieceOf(i: nat, ps: Grid): nat { i / ps }

  function Offset(p: nat, ps: Grid): nat { p * ps }

  function DivCeil(n: nat, ps: Grid): nat { n / ps + (if n % ps != 0 then 1 else 0) }

  /** Piece count of a file, clamped at the u32 maximum. */
  function Count(size: nat, ps: Grid): nat { Min(DivCeil(size, ps), MAX_PIECES) }

  function Len(size: nat, p: nat, ps: Grid): nat {
    if Offset(p, ps) >= size then 0 else Min(size - Offset(p, ps), ps)
  }

  /** Pieces overlapping [off, off+n) in a file of `size` bytes. */
  function Cover(off: nat, n: nat, size: nat, ps: Grid): Span {
    if n == 0 || off >= size then Span(0, 0)
    else Span(Min(PieceOf(off, ps), MAX_PIECES), Min(PieceOf(Min(off + n, size) - 1, ps) + 1, MAX_PIECES))
  }

  /** Pieces lying entirely inside [off, off+n). */
  function FullCover(off: nat, n: nat, ps: Grid): Span {
    if n == 0 || DivCeil(off, ps) >= PieceOf(off + n, ps) then Span(0, 0)
    else Span(Min(DivCeil(off, ps), MAX_PIECES), Min(PieceOf(off + n, ps), MAX_PIECES))
  }

  /** Exclusive end of the bytes some bit can name. */
  function TrackedEnd(size: nat, ps: Grid): nat {
    var n := Count(size, ps);
    if n == 0 then 0 else Offset(n - 1, ps) + Len(size, n - 1, ps)
  }

  function BytesLen(nbits: nat): nat { (nbits + 7) / 8 }

  /** The bytes of piece `p` in a file of `size` bytes. */
  function PieceBytes(p: nat, size: nat, ps: Grid): set<nat> {
    set i: nat | 0 <= i < size && PieceOf(i, ps) == p
  }

  predicate InRange(off: nat, n: nat, i: nat) { off <= i < off + n }

  function Extend(off: nat, data: seq<Byte>): (x: Extent)
    ensures forall i :: i in x <==> InRange(off, |data|, i)
    ensures forall i: nat :: InRange(off, |data|, i) ==> x[i] == data[i - off]
  {
    map i: nat | i < off + |data| && InRange(off, |data|, i) :: data[i - off]
  }

  function Restrict(x: Extent, keep: set<nat>): (y: Extent)
    ensures forall i :: i in y <==> i in x && i in keep
    ensures forall i :: i in y ==> y[i] == x[i]
  {
    map i | i in x && i in keep :: x[i]
  }

  /** `ftruncate`: drops every byte at or past `n`. */
  function Cut(x: Extent, n: nat): (y: Extent)
    ensures forall i :: i in y <==> i in x && i < n
    ensures forall i :: i in y ==> y[i] == x[i]
  {
    map i | i in x && i < n :: x[i]
  }

  /** The part of a buffer that belongs to piece `p`. */
  function InPiece(x: Extent, p: nat, ps: Grid): (y: Extent)
    ensures forall i :: i in y <==> i in x && PieceOf(i, ps) == p
    ensures forall i :: i in y ==> y[i] == x[i]
  {
    map i | i in x && PieceOf(i, ps) == p :: x[i]
  }

  /* ---- arithmetic of the division by the grid ---- */

  lemma DivModIs(n: nat, d: nat, q: nat, r: nat)
    requires n == d * q + r && r < d
    ensures n / d == q && n % d == r
  {
    Times(d, q, n / d);
    Times(d, n / d, q);
  }

  lemma Times(a: nat, b: nat, c: nat)
    ensures b < c ==> a * b + a <= a * c
  {
    if b < c {
      assert a * (b + 1) <= a * c;
    }
  }

  lemma OffsetSteps(a: nat, b: nat, ps: Grid)
    ensures a < b ==> Offset(a, ps) + ps <= Offset(b, ps)
    ensures a <= b ==> Offset(a, ps) <= Offset(b, ps)
  {
    if a < b {
      assert (a + 1) * ps <= b * ps;
    }
  }

  lemma PieceRange(i: nat, p: nat, ps: Grid)
    ensures PieceOf(i, ps) == p <==> Offset(p, ps) <= i < Offset(p, ps) + ps
  {
    var q := i / ps;
    assert Offset(q, ps) <= i < Offset(q, ps) + ps;
    OffsetSteps(p, q, ps);
    OffsetSteps(q, p, ps);
  }

  lemma PieceMonotone(i: nat, j: nat, ps: Grid)
    requires i <= j
    ensures PieceOf(i, ps) <= PieceOf(j, ps)
  {
    var p, q := PieceOf(i, ps), PieceOf(j, ps);
    PieceRange(i, p, ps);
    PieceRange(j, q, ps);
    OffsetSteps(q, p, ps);
  }

  lemma DivCeilBound(n: nat, p: nat, ps: Grid)
    ensures DivCeil(n, ps) <= p <==> n <= Offset(p, ps)
  {
    var q := PieceOf(n, ps);
    PieceRange(n, q, ps);
    assert n % ps == n - Offset(q, ps);
    OffsetSteps(p, q, ps);
    OffsetSteps(q, p, ps);
  }

  lemma FloorBound(n: nat, p: nat, ps: Grid)
    ensures p < PieceOf(n, ps) <==> Offset(p, ps) + ps <= n
  {
    var q := PieceOf(n, ps);
    PieceRange(n, q, ps);
    OffsetSteps(p, q, ps);
    OffsetSteps(q, p, ps);
  }

  /** `cover` names exactly the pieces some byte of the clipped range lies in. */
  lemma CoverExact(off: nat, n: nat, size: nat, p: nat, ps: Grid)
    requires p < MAX_PIECES
    ensures Cover(off, n, size, ps).Has(p) <==>
            exists i: nat :: off <= i < off + n && i < size && PieceOf(i, ps) == p
  {
    if n != 0 && off < size {
      forall i: nat | off <= i < off + n && i < size && PieceOf(i, ps) == p
        ensures Cover(off, n, size, ps).Has(p)
      {
        CoverHolds(off, n, size, i, ps);
      }
      if Cover(off, n, size, ps).Has(p) {
        var i := CoverWitness(off, n, size, p, ps);
      }
    }
  }

  lemma CoverHolds(off: nat, n: nat, size: nat, i: nat, ps: Grid)
    requires off <= i < off + n && i < size && PieceOf(i, ps) < MAX_PIECES
    ensures Cover(off, n, size, ps).Has(PieceOf(i, ps))
  {
    PieceMonotone(off, i, ps);
    PieceMonotone(i, Min(off + n, size) - 1, ps);
  }

  lemma CoverWitness(off: nat, n: nat, size: nat, p: nat, ps: Grid) returns (i: nat)
    requires Cover(off, n, size, ps).Has(p)
    ensures off <= i < off + n && i < size && PieceOf(i, ps) == p
  {
    var first, last := PieceOf(off, ps), PieceOf(Min(off + n, size) - 1, ps);
    PieceRange(off, first, ps);
    PieceRange(Min(off + n, size) - 1, last, ps);
    OffsetSteps(first, p, ps);
    OffsetSteps(p, last, ps);
    i := if first == p then off else Offset(p, ps);
    PieceRange(i, p, ps);
  }

  /** `fullCover` names exactly the pieces every byte of which the range holds. */
  lemma FullCoverExact(off: nat, n: nat, p: nat, ps: Grid)
    requires p < MAX_PIECES
    ensures FullCover(off, n, ps).Has(p) <==>
            forall i: nat :: PieceOf(i, ps) == p ==> off <= i < off + n
  {
    DivCeilBound(off, p, ps);
    FloorBound(off + n, p, ps);
    var lo, hi := Offset(p, ps), Offset(p, ps) + ps - 1;
    PieceRange(lo, p, ps);
    PieceRange(hi, p, ps);
    forall i: nat | PieceOf(i, ps) == p ensures lo <= i <= hi {
      PieceRange(i, p, ps);
    }
  }

  /** An aligned write has no boundary piece: each of its bytes is fully covered. */
  lemma AlignedCover(off: nat, n: nat, i: nat, ps: Grid)
    requires FullCover(off, n, ps).start < FullCover(off, n, ps).end
    requires Offset(FullCover(off, n, ps).start, ps) == off
    requires Offset(FullCover(off, n, ps).end, ps) - off == n
    requires off <= i < off + n
    ensures FullCover(off, n, ps).Has(PieceOf(i, ps))
  {
    var c := FullCover(off, n, ps);
    var p := PieceOf(i, ps);
    PieceRange(i, p, ps);
    OffsetSteps(p, c.start, ps);
    OffsetSteps(c.end, p, ps);
  }

  /** Equal piece lengths mean the same bytes: the length gate of finishPiece. */
  lemma LenNamesBytes(a: nat, b: nat, p: nat, ps: Grid)
    ensures Len(a, p, ps) == Len(b, p, ps) <==> PieceBytes(p, a, ps) == PieceBytes(p, b, ps)
  {
    forall i: nat ensures PieceOf(i, ps) == p <==> Offset(p, ps) <= i < Offset(p, ps) + ps {
      PieceRange(i, p, ps);
    }
    if Len(a, p, ps) < Len(b, p, ps) {
      assert Offset(p, ps) + Len(a, p, ps) in PieceBytes(p, b, ps);
      assert Offset(p, ps) + Len(a, p, ps) !in PieceBytes(p, a, ps);
    } else if Len(b, p, ps) < Len(a, p, ps) {
      assert Offset(p, ps) + Len(b, p, ps) in PieceBytes(p, a, ps);
      assert Offset(p, ps) + Len(b, p, ps) !in PieceBytes(p, b, ps);
    }
  }

  /** A grow leaves every started piece alone except the short last one. */
  lemma GrowKeepsFullPieces(was: nat, p: nat, ps: Grid)
    requires Offset(p, ps) < was
    requires was % ps == 0 || p != PieceOf(was, ps)
    ensures forall i: nat :: PieceOf(i, ps) == p ==> i < was
  {
    var q := PieceOf(was, ps);
    PieceRange(was, q, ps);
    assert was % ps == was - Offset(q, ps);
    OffsetSteps(p, q, ps);
    OffsetSteps(q, p, ps);
    forall i: nat | PieceOf(i, ps) == p ensures i < was {
      PieceRange(i, p, ps);
    }
  }

  /** A byte lies before `trackedEnd` exactly when it is in the file and some
      bit of the clamped field names its piece. */
  lemma TrackedEndExact(i: nat, size: nat, ps: Grid)
    ensures i < TrackedEnd(size, ps) <==> i < size && PieceOf(i, ps) < Count(size, ps)
  {
    var n, p := Count(size, ps), PieceOf(i, ps);
    PieceRange(i, p, ps);
    DivCeilBound(size, n, ps);
    if n == 0 {
    } else {
      DivCeilBound(size, n - 1, ps);
      OffsetSteps(p, n - 1, ps);
      OffsetSteps(n - 1, p, ps);
    }
  }
}
