/** The persisted sidecar byte by byte: what `saveBits` writes, what `loadBits`
    makes of it after a restart, and the one length coincidence under which the
    two disagree. */
module SidecarCodec {
  import opened Pieces
  import opened Wire
  import opened Bitfields
  import opened Entries

  /** "MFS1". */
  const MAGIC: seq<Byte> := [0x4D, 0x46, 0x53, 0x31]
  const HEADER: nat := 16
  const TRAILER: nat := 24

  predicate Stampable(id: OriginId) {
    && -0x8000_0000_0000_0000 <= id.sec < 0x8000_0000_0000_0000
    && -0x8000_0000_0000_0000 <= id.nsec < 0x8000_0000_0000_0000
    && id.ino < 0x1_0000_0000_0000_0000
  }

  function IdBytes(id: OriginId): (s: seq<Byte>)
    requires Stampable(id)
    ensures |s| == TRAILER
  {
    Le(Unsigned(id.sec), 8) + Le(Unsigned(id.nsec), 8) + Le(id.ino, 8)
  }

  function ReadId(s: seq<Byte>): OriginId
    requires |s| == TRAILER
  {
    OriginId(Signed(UnLe(s[..8])), Signed(UnLe(s[8..16])), UnLe(s[16..]), true)
  }

  /** `encodeTo`, and the identity trailer `saveBits` appends when it is known. */
  function Blob(field: seq<Byte>, ps: Grid, size: nat, id: OriginId): seq<Byte>
    requires Stampable(id)
  {
    MAGIC + Le(ps, 4) + Le(size, 8) + field + if id.known then IdBytes(id) else []
  }

  datatype Decoded = BadBitfield | Field(bytes: seq<Byte>)

  function Zeros(n: nat): seq<Byte> { seq(n, _ => 0) }

  predicate Sized(blob: seq<Byte>, ps: Grid, size: nat) {
    var body := HEADER + BytesLen(Count(size, ps));
    |blob| == body || |blob| == body + TRAILER
  }

  /** `Bitfield.decode`. */
  function Decode(blob: seq<Byte>, ps: Grid, size: nat): (d: Decoded)
    ensures d.Field? ==> PadClear(d.bytes, Count(size, ps))
  {
    if |blob| < HEADER || blob[..4] != MAGIC || UnLe(blob[4..8]) == 0 then BadBitfield
    else if !Sized(blob, UnLe(blob[4..8]), UnLe(blob[8..16])) then BadBitfield
    else
      var n := Count(size, ps);
      if UnLe(blob[4..8]) != ps || UnLe(blob[8..16]) != size
      then Field(ClearPad(Zeros(BytesLen(n)), n))
      else Field(ClearPad(blob[HEADER..HEADER + BytesLen(n)], n))
  }

  /** What a restart takes from the blob; a discarded one is wiped on disk. */
  datatype Loaded = Loaded(bits: set<nat>, discarded: bool)

  function Load(blob: seq<Byte>, ps: Grid, size: nat, now: OriginId): Loaded {
    match Decode(blob, ps, size)
    case BadBitfield => Loaded({}, true)
    case Field(bytes) =>
      var n := Count(size, ps);
      if UnLe(blob[4..8]) != ps || UnLe(blob[8..16]) != size then Loaded({}, true)
      else
        var at := HEADER + |bytes|;
        if |blob| >= at + TRAILER && ContentChanged(ReadId(blob[at..at + TRAILER]), now) then Loaded({}, true)
        else Loaded(SetOf(bytes, n), false)
  }

  lemma IdReadsBack(id: OriginId)
    requires Stampable(id) && id.known
    ensures ReadId(IdBytes(id)) == id
    ensures var s, wrap := IdBytes(id), 0x1_0000_0000_0000_0000;
      && UnLe(s[..8]) == (if id.sec < 0 then id.sec + wrap else id.sec)
      && UnLe(s[8..16]) == (if id.nsec < 0 then id.nsec + wrap else id.nsec)
      && UnLe(s[16..]) == id.ino
  {
    Widths();
    ReadsBack(Unsigned(id.sec), 8);
    ReadsBack(Unsigned(id.nsec), 8);
    ReadsBack(id.ino, 8);
    var s := IdBytes(id);
    assert s[..8] == Le(Unsigned(id.sec), 8) && s[8..16] == Le(Unsigned(id.nsec), 8) && s[16..] == Le(id.ino, 8);
  }

  lemma HeaderReadsBack(field: seq<Byte>, ps: Grid, size: nat, id: OriginId)
    requires Stampable(id) && ps < 0x1_0000_0000 && size < 0x1_0000_0000_0000_0000
    ensures var b := Blob(field, ps, size, id);
      && b[..4] == MAGIC && UnLe(b[4..8]) == ps && UnLe(b[8..16]) == size
      && b[HEADER..] == field + if id.known then IdBytes(id) else []
  {
    Widths();
    ReadsBack(ps, 4);
    ReadsBack(size, 8);
    Slices(MAGIC, Le(ps, 4), Le(size, 8), field, if id.known then IdBytes(id) else []);
  }

  lemma Slices(a: seq<Byte>, b: seq<Byte>, c: seq<Byte>, d: seq<Byte>, e: seq<Byte>)
    requires |a| == 4 && |b| == 4 && |c| == 8
    ensures var s := a + b + c + d + e; s[..4] == a && s[4..8] == b && s[8..16] == c && s[16..] == d + e
  {
  }

  /** The lengths under which the blob of an entry, whose field is not as long as
      its size calls for, still has one of the two legal lengths: the identity
      trailer is then read as marks, or marks as the trailer. */
  predicate Misread(nbits: nat, id: OriginId, size: nat, now: nat, ps: Grid) {
    && size == now
    && (if id.known then BytesLen(Count(now, ps)) == BytesLen(nbits) + TRAILER
        else BytesLen(nbits) == BytesLen(Count(now, ps)) + TRAILER)
  }

  /** A restart takes from the saved sidecar exactly the marks that are trusted
      at the current origin stat, and throws it away in every other case, but for
      the misread lengths. */
  lemma SidecarReloads(field: seq<Byte>, nbits: nat, ps: Grid, size: nat, id: OriginId, now: nat, at: OriginId)
    requires PadClear(field, nbits) && Stampable(id) && ps < 0x1_0000_0000 && size < 0x1_0000_0000_0000_0000
    requires !Misread(nbits, id, size, now, ps)
    ensures var sc := Sidecar(size, nbits, SetOf(field, nbits), id);
      Load(Blob(field, ps, size, id), ps, now, at) ==
      Loaded(LoadBits(Some(sc), now, at, ps), !Trusted(sc, now, at, ps))
  {
    HeaderReadsBack(field, ps, size, id);
    if size == now && |field| == BytesLen(Count(now, ps)) {
      FieldReadsBack(field, nbits, ps, size, id);
    }
  }

  lemma FieldReadsBack(field: seq<Byte>, nbits: nat, ps: Grid, size: nat, id: OriginId)
    requires PadClear(field, nbits) && Stampable(id) && ps < 0x1_0000_0000 && size < 0x1_0000_0000_0000_0000
    requires |field| == BytesLen(Count(size, ps))
    ensures var b := Blob(field, ps, size, id);
      && |b| == HEADER + |field| + (if id.known then TRAILER else 0)
      && b[HEADER..HEADER + |field|] == field
      && (id.known ==> ReadId(b[HEADER + |field|..HEADER + |field| + TRAILER]) == id)
    ensures SetOf(ClearPad(field, Count(size, ps)), Count(size, ps)) ==
            (set p | p in SetOf(field, nbits) && p < Count(size, ps))
  {
    HeaderReadsBack(field, ps, size, id);
    var b := Blob(field, ps, size, id);
    if id.known {
      IdReadsBack(id);
      assert b[HEADER + |field|..HEADER + |field| + TRAILER] == IdBytes(id);
    }
  }

  /** With a field 24 bytes too short and a known identity, the restart takes the
      field and the identity's own bytes for marks, and keeps them: it agrees with
      the trusted (empty) set exactly when nothing was marked and no set bit of the
      identity's bytes names a piece. */
  lemma TrailerReadAsMarks(field: seq<Byte>, nbits: nat, ps: Grid, size: nat, id: OriginId, at: OriginId)
    requires PadClear(field, nbits) && Stampable(id) && ps < 0x1_0000_0000 && size < 0x1_0000_0000_0000_0000
    requires id.known && Misread(nbits, id, size, size, ps)
    ensures var sc := Sidecar(size, nbits, SetOf(field, nbits), id);
      var got := Load(Blob(field, ps, size, id), ps, size, at);
      && LoadBits(Some(sc), size, at, ps) == {}
      && got == Loaded(SetOf(field + IdBytes(id), Count(size, ps)), false)
      && (got.bits == {} <==>
            SetOf(field, nbits) == {} &&
            forall k: nat {:trigger BitIsSet(IdBytes(id), k)} ::
              k < 8 * TRAILER && 8 * |field| + k < Count(size, ps) ==> !BitIsSet(IdBytes(id), k))
  {
    HeaderReadsBack(field, ps, size, id);
    var b := Blob(field, ps, size, id);
    var n := Count(size, ps);
    var all := field + IdBytes(id);
    assert b[HEADER..HEADER + BytesLen(n)] == all;
    assert SetOf(ClearPad(all, n), n) == SetOf(all, n);
    JoinedMarks(field, nbits, IdBytes(id), n);
  }

  /** The marks of two byte strings in a row. */
  lemma JoinedMarks(field: seq<Byte>, nbits: nat, tail: seq<Byte>, n: nat)
    requires PadClear(field, nbits) && tail != [] && BytesLen(n) == |field| + |tail|
    ensures SetOf(field + tail, n) == {} <==>
            SetOf(field, nbits) == {} &&
            forall k: nat {:trigger BitIsSet(tail, k)} :: k < 8 * |tail| && 8 * |field| + k < n ==> !BitIsSet(tail, k)
  {
    var at := 8 * |field|;
    forall j: nat ensures BitIsSet(field + tail, j) <==> if j < at then BitIsSet(field, j) else BitIsSet(tail, j - at) {
    }
    forall j | j in SetOf(field, nbits) ensures j in SetOf(field + tail, n) {
      assert BitIsSet(field + tail, j);
    }
    if SetOf(field + tail, n) == {} {
      forall k: nat | k < 8 * |tail| && at + k < n ensures !BitIsSet(tail, k) {
        assert at + k !in SetOf(field + tail, n);
      }
    } else {
      var j :| j in SetOf(field + tail, n);
      if j < at {
        assert j in SetOf(field, nbits);
      } else {
        assert BitIsSet(tail, j - at);
      }
    }
  }

  /** With an unknown identity and a field 24 bytes too long, the restart takes the
      end of the field for an identity: unless that happens to be outdated it
      keeps the marks below the count, where the trusted set is empty. */
  lemma MarksReadAsTrailer(field: seq<Byte>, nbits: nat, ps: Grid, size: nat, id: OriginId, at: OriginId)
    requires PadClear(field, nbits) && Stampable(id) && ps < 0x1_0000_0000 && size < 0x1_0000_0000_0000_0000
    requires !id.known && Misread(nbits, id, size, size, ps)
    ensures var sc := Sidecar(size, nbits, SetOf(field, nbits), id);
      var outdated := ContentChanged(ReadId(field[|field| - TRAILER..]), at);
      && LoadBits(Some(sc), size, at, ps) == {}
      && Load(Blob(field, ps, size, id), ps, size, at) ==
         Loaded(if outdated then {} else (set p | p in SetOf(field, nbits) && p < Count(size, ps)), outdated)
  {
    HeaderReadsBack(field, ps, size, id);
    var b := Blob(field, ps, size, id);
    var n := Count(size, ps);
    var body := field[..BytesLen(n)];
    assert b[HEADER..] == field;
    assert b[HEADER..HEADER + BytesLen(n)] == body;
    assert b[HEADER + BytesLen(n)..HEADER + BytesLen(n) + TRAILER] == field[|field| - TRAILER..];
    PrefixMarks(field, nbits, n);
  }

  lemma PrefixMarks(field: seq<Byte>, nbits: nat, n: nat)
    requires PadClear(field, nbits) && BytesLen(n) <= |field|
    ensures SetOf(ClearPad(field[..BytesLen(n)], n), n) == (set p | p in SetOf(field, nbits) && p < n)
  {
    var body := field[..BytesLen(n)];
    forall i: nat | i < n ensures BitIsSet(body, i) <==> i in SetOf(field, nbits) {
      assert BitIsSet(body, i) <==> BitIsSet(field, i);
    }
  }

  /** Every case: the marks a restart takes are the trusted ones exactly when the
      lengths do not coincide or the misread bytes happen to name no piece. */
  lemma ReloadsExactly(field: seq<Byte>, nbits: nat, ps: Grid, size: nat, id: OriginId, now: nat, at: OriginId)
    requires PadClear(field, nbits) && Stampable(id) && ps < 0x1_0000_0000 && size < 0x1_0000_0000_0000_0000
    ensures var sc := Sidecar(size, nbits, SetOf(field, nbits), id);
      Load(Blob(field, ps, size, id), ps, now, at).bits == LoadBits(Some(sc), now, at, ps) <==>
        || !Misread(nbits, id, size, now, ps)
        || (id.known && sc.bits == {} &&
              forall k: nat {:trigger BitIsSet(IdBytes(id), k)} ::
                k < 8 * TRAILER && 8 * |field| + k < Count(now, ps) ==> !BitIsSet(IdBytes(id), k))
        || (!id.known &&
              (ContentChanged(ReadId(field[|field| - TRAILER..]), at) ||
               forall p :: p in sc.bits ==> Count(now, ps) <= p))
  {
    if !Misread(nbits, id, size, now, ps) {
      SidecarReloads(field, nbits, ps, size, id, now, at);
    } else if id.known {
      TrailerReadAsMarks(field, nbits, ps, size, id, at);
    } else {
      MarksReadAsTrailer(field, nbits, ps, size, id, at);
      BelowCount(SetOf(field, nbits), Count(size, ps));
    }
  }

  lemma BelowCount(bits: set<nat>, n: nat)
    ensures (set p | p in bits && p < n) == {} <==> forall p :: p in bits ==> n <= p
  {
    var low := set p | p in bits && p < n;
    assert forall p :: p in low <==> p in bits && p < n;
  }

  /** What a restart takes from a save that broke off anywhere: only a part as long as
      one of the two legal lengths is looked at. */
  lemma PrefixReloads(field: seq<Byte>, ps: Grid, size: nat, id: OriginId, k: nat, now: nat, at: OriginId)
    requires Stampable(id) && ps < 0x1_0000_0000 && size < 0x1_0000_0000_0000_0000
    requires k <= |Blob(field, ps, size, id)|
    ensures var b := Blob(field, ps, size, id);
      var n := Count(now, ps);
      var end := HEADER + BytesLen(n);
      Load(b[..k], ps, now, at) ==
        if size != now || (k != end && k != end + TRAILER) then Loaded({}, true)
        else if k == end + TRAILER && ContentChanged(ReadId(b[end..k]), at) then Loaded({}, true)
        else Loaded(SetOf(ClearPad(b[HEADER..end], n), n), false)
  {
    HeaderReadsBack(field, ps, size, id);
    var b := Blob(field, ps, size, id);
    if k >= HEADER {
      assert b[..k][..4] == b[..4] && b[..k][4..8] == b[4..8] && b[..k][8..16] == b[8..16];
      PrefixSlices(b, k, HEADER + BytesLen(Count(now, ps)));
    }
  }

  lemma PrefixSlices(b: seq<Byte>, k: nat, end: nat)
    requires HEADER <= end && HEADER <= k <= |b|
    ensures end <= k ==> b[..k][HEADER..end] == b[HEADER..end]
    ensures end + TRAILER == k ==> b[..k][end..end + TRAILER] == b[end..k]
  {
  }

  /** With a field as long as its size calls for, a torn save is thrown away, unless it
      broke off exactly before its identity: then its marks are trusted at any. */
  lemma TornSaveReloads(field: seq<Byte>, nbits: nat, ps: Grid, size: nat, id: OriginId, k: nat, now: nat, at: OriginId)
    requires PadClear(field, nbits) && Stampable(id) && ps < 0x1_0000_0000 && size < 0x1_0000_0000_0000_0000
    requires |field| == BytesLen(Count(size, ps)) && k < |Blob(field, ps, size, id)|
    ensures var bare := Sidecar(size, nbits, SetOf(field, nbits), id.(known := false));
      Load(Blob(field, ps, size, id)[..k], ps, now, at) ==
        if size == now && id.known && k == HEADER + |field| then Loaded(LoadBits(Some(bare), now, at, ps), false)
        else Loaded({}, true)
  {
    PrefixReloads(field, ps, size, id, k, now, at);
    FieldReadsBack(field, nbits, ps, size, id);
  }

  lemma FirstByte(n: nat, k: nat)
    requires k > 0
    ensures Le(n, k)[0] == n % 256
  {
  }

  lemma OddStampMarksPieceZero(id: OriginId)
    requires Stampable(id) && Unsigned(id.sec) % 2 == 1
    ensures BitIsSet(IdBytes(id), 0)
  {
    FirstByte(Unsigned(id.sec), 8);
    assert IdBytes(id)[0] == Le(Unsigned(id.sec), 8)[0];
  }

  lemma GrownEmpty(e: Entry)
    requires e.size == 0 && e.nbits == 0 && e.bits == {}
    ensures GrowTo(e, 192, true, false, 1) == e.(size := 192)
    ensures Count(192, 1) == 192 && Count(0, 1) == 0
  {
  }

  /** An empty file grown by 192 pieces while a transfer is in flight: the field
      keeps its length, no piece is marked, and the process that reloads the
      saved sidecar holds piece 0 for filled, which the cache file has nothing of. */
  lemma DeferredGrowMisreads(e: Entry)
    requires e.size == 0 && e.nbits == 0 && e.bits == {} && e.cache == map[] && e.id == OriginId(1, 0, 1, true)
    ensures var g := GrowTo(e, 192, true, false, 1);
      && g.size == 192 && g.nbits == 0 && g.bits == {} && 0 !in g.cache
      && 0 in Load(Blob([], 1, g.size, g.id), 1, g.size, g.id).bits
  {
    GrownEmpty(e);
    OddStampMarksPieceZero(e.id);
    TrailerReadAsMarks([], 0, 1, 192, e.id, e.id);
    assert [] + IdBytes(e.id) == IdBytes(e.id);
    assert 0 in SetOf(IdBytes(e.id), 192);
  }
}
