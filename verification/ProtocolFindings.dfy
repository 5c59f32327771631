/** Runs that break a documented promise. Each starts cold and takes one step
    the clauses of `Orderly` exclude, or shows a step the promise overlooks. */
module ProtocolFindings {
  import opened Pieces
  import opened Entries
  import opened Protocol
  import opened ProtocolInv
  import opened ProtocolTheorems

  /** Steps of a run that no `Orderly` environment takes. */
  ghost function Breaches(w: World, acts: seq<Action>): nat
    requires Runs(w, acts)
    decreases |acts|
  {
    if acts == [] then 0
    else (if Orderly(w, acts[0]) then 0 else 1) + Breaches(Apply(w, acts[0]), acts[1..])
  }

  ghost predicate Leads(w: World, acts: seq<Action>, v: World, n: nat) {
    Runs(w, acts) && After(w, acts) == v && Breaches(w, acts) == n
  }

  /** Some run from a cold w, with n disorderly steps, ends in v. */
  ghost predicate Reaches(w: World, v: World, n: nat) { Init(w) && exists acts :: Leads(w, acts, v, n) }

  lemma {:induction false} Snoc(w: World, acts: seq<Action>, v: World, n: nat, a: Action)
    requires Leads(w, acts, v, n) && Enabled(v, a)
    ensures Leads(w, acts + [a], Apply(v, a), n + if Orderly(v, a) then 0 else 1)
    decreases |acts|
  {
    var all := acts + [a];
    if acts == [] {
      assert all[1..] == [];
      assert Runs(Apply(v, a), []);
    } else {
      assert all[1..] == acts[1..] + [a];
      Snoc(Apply(w, acts[0]), acts[1..], v, n - if Orderly(w, acts[0]) then 0 else 1, a);
    }
  }

  /** One orderly step more. */
  lemma Go(w: World, v: World, n: nat, a: Action, u: World)
    requires Reaches(w, v, n) && Enabled(v, a) && Orderly(v, a) && Apply(v, a) == u
    ensures Reaches(w, u, n)
  {
    var acts :| Leads(w, acts, v, n);
    Snoc(w, acts, v, n, a);
  }

  /** One step more that `Orderly` excludes. */
  lemma Stray(w: World, v: World, n: nat, a: Action, u: World)
    requires Reaches(w, v, n) && Enabled(v, a) && !Orderly(v, a) && Apply(v, a) == u
    ensures Reaches(w, u, n + 1)
  {
    var acts :| Leads(w, acts, v, n);
    Snoc(w, acts, v, n, a);
  }

  const ONE: Grid := 1

  function Id(n: int): OriginId { OriginId(n, 0, 1, true) }

  function Cold(bytes: seq<Byte>): World {
    World(ONE, Entry(|bytes|, |bytes|, {}, 0, map[], map[], 0, map[], Id(0), None, false, None),
          bytes, Id(0), Idle, Free, map[], map[], 0, map[], {}, {})
  }

  lemma ColdReaches(bytes: seq<Byte>)
    requires |bytes| < 100
    ensures Reaches(Cold(bytes), Cold(bytes), 0)
  {
    assert Leads(Cold(bytes), [], Cold(bytes), 0);
  }

  /** With pieces of one byte, a piece is its byte. */
  lemma OneByte(i: nat, size: nat)
    ensures PieceOf(i, ONE) == i && Offset(i, ONE) == i && DivCeil(size, ONE) == size
    ensures PieceBytes(i, size, ONE) == if i < size then {i} else {}
  {
  }

  lemma CoverOne(i: nat, size: nat, b: Byte)
    requires i < MAX_PIECES - 1
    ensures FullCover(i, 1, ONE) == Span(i, i + 1)
    ensures Cover(i, 1, size, ONE) == if i < size then Span(i, i + 1) else Span(0, 0)
    ensures CoverSet(Span(i, i + 1)) == {i} && CoverSet(Span(0, 0)) == {}
    ensures Extend(i, [b]) == map[i := b] == InPiece(Extend(i, [b]), i, ONE)
  {
    OneByte(i, size);
  }

  /** `AlreadyApplied` fails without the write's own digest; the copy marks the piece. */
  lemma MarkOne(e: Entry, i: nat, b: Byte)
    requires i < e.nbits && i < MAX_PIECES - 1
    requires i in e.bits && i in e.hashes ==> e.hashes[i] != Blake3(map[i := b])
    ensures CopyMark(e, i, [b], true, false, ONE) ==
            e.(writes := e.writes + 1, bits := e.bits + {i}, hashes := e.hashes[i := Blake3(map[i := b])])
  {
    CoverOne(i, e.size, b);
    assert FullCover(i, 1, ONE).Has(i);
    assert CopyHashes(e, i, [b], ONE) == e.hashes[i := Blake3(map[i := b])];
  }

  /** ... and a copy refused under a transfer drops it. */
  lemma UnmarkOne(e: Entry, i: nat, b: Byte)
    requires i < e.size && i < MAX_PIECES - 1 && (i in e.hashes ==> e.hashes[i] != Blake3(map[i := b]))
    ensures CopyMark(e, i, [b], false, false, ONE) ==
            e.(writes := e.writes + 1, bits := e.bits - {i}, hashes := e.hashes - {i})
  {
    CoverOne(i, e.size, b);
    assert FullCover(i, 1, ONE).Has(i);
    assert !AlreadyApplied(e, i, [b], ONE);
  }

  /** Nothing holds a lock, a claim or a load; readers may be there. */
  predicate Quiet(v: World) {
    v.ps == ONE && v.lock.Free? && v.loads == map[] && v.raw == 0 && v.exposed == {}
  }

  lemma GoRead(w: World, v: World, n: nat, p: nat, buf: Extent)
    requires Reaches(w, v, n) && CanOriginRead(v, p, buf)
    ensures Reaches(w, DoHold(v, p, buf), n)
  {
    Go(w, v, n, OriginRead(p, buf), DoHold(v, p, buf));
  }

  lemma GoBegin(w: World, v: World, n: nat, p: nat)
    requires Reaches(w, v, n) && CanBeginFill(v, p)
    ensures Reaches(w, DoBeginFill(v, p), n)
  {
    Go(w, v, n, BeginFill(p), DoBeginFill(v, p));
  }

  /** Piece p is claimed. */
  lemma ClaimOne(w: World, v: World, n: nat, p: nat)
    requires Reaches(w, v, n) && Quiet(v)
    requires p < v.e.size && p < MAX_PIECES && p !in v.e.bits && v.fills == map[] && v.e.filling == map[]
    ensures Reaches(w, v.(e := v.e.(filling := map[p := v.e.writes]), fills := map[p := Fill(1, None, None)]), n)
  {
    OneByte(p, v.e.size);
    GoBegin(w, v, n, p);
    assert v.fills[p := Fill(1, None, None)] == map[p := Fill(1, None, None)];
    assert v.e.filling[p := v.e.writes] == map[p := v.e.writes];
  }

  /** ... and its bytes are in hand. */
  lemma Fetch(w: World, v: World, n: nat, p: nat)
    requires Reaches(w, v, n) && Quiet(v)
    requires p < v.e.size <= |v.origin| && p < MAX_PIECES && p !in v.e.bits && v.fills == map[] && v.e.filling == map[]
    ensures Reaches(w, v.(e := v.e.(filling := map[p := v.e.writes]),
                          fills := map[p := Fill(1, None, Some(map[p := v.origin[p]]))]), n)
  {
    var f := Fill(1, None, None);
    var v1 := v.(e := v.e.(filling := map[p := v.e.writes]), fills := map[p := f]);
    ClaimOne(w, v, n, p);
    OneByte(p, p + 1);
    assert FillBytes(f, p, ONE) == {p};
    GoRead(w, v1, n, p, map[p := v.origin[p]]);
    assert v1.fills[p := f.(buf := Some(map[p := v.origin[p]]))] == map[p := f.(buf := Some(map[p := v.origin[p]]))];
  }

  lemma GoCheck(w: World, v: World, n: nat, p: nat)
    requires Reaches(w, v, n) && CanFillCheck(v, p)
    ensures Reaches(w, DoFillCheck(v, p), n)
  {
    Go(w, v, n, FillCheck(p), DoFillCheck(v, p));
  }

  lemma GoPwrite(w: World, v: World, n: nat, keep: set<nat>)
    requires Reaches(w, v, n) && CanFillPwrite(v)
    ensures Reaches(w, DoFillPwrite(v, keep), n)
  {
    Go(w, v, n, FillPwrite(keep), DoFillPwrite(v, keep));
  }

  lemma CheckOne(v: World, p: nat, b: Byte, want: Option<Digest>, good: set<nat>)
    requires Quiet(v) && p < v.e.size && p !in v.e.bits && good == (if Dirty(v, p) then {} else {p})
    requires v.e.filling == map[p := v.e.writes] && v.fills == map[p := Fill(1, want, Some(map[p := b]))]
    ensures CanFillCheck(v, p) && DoFillCheck(v, p) == v.(lock := Landing(p, map[p := b], false, good))
  {
    OneByte(p, v.e.size);
    assert (set i | i in map[p := b] && !Dirty(v, i)) == good;
  }

  /** The bytes in hand go through the check into the cache file. */
  lemma LandAs(w: World, v: World, n: nat, p: nat, b: Byte, want: Option<Digest>, good: set<nat>)
    requires Reaches(w, v, n) && Quiet(v) && p < v.e.size && p !in v.e.bits && good == (if Dirty(v, p) then {} else {p})
    requires v.e.filling == map[p := v.e.writes] && v.fills == map[p := Fill(1, want, Some(map[p := b]))]
    ensures Reaches(w, v.(e := v.e.(cache := v.e.cache[p := b]), lock := Landing(p, map[p := b], true, good)), n)
  {
    CheckOne(v, p, b, want, good);
    GoCheck(w, v, n, p);
    var v1 := v.(lock := Landing(p, map[p := b], false, good));
    GoPwrite(w, v1, n, {p});
    assert v.e.cache + Restrict(map[p := b], {p}) == v.e.cache[p := b];
  }

  lemma Land(w: World, v: World, n: nat, p: nat, b: Byte, want: Option<Digest>)
    requires Reaches(w, v, n) && Quiet(v) && v.mut.Idle? && p < v.e.size && p !in v.e.bits
    requires v.e.filling == map[p := v.e.writes] && v.fills == map[p := Fill(1, want, Some(map[p := b]))]
    ensures Reaches(w, v.(e := v.e.(cache := v.e.cache[p := b]), lock := Landing(p, map[p := b], true, {p})), n)
  {
    LandAs(w, v, n, p, b, want, {p});
  }

  lemma Finish(w: World, v: World, n: nat, p: nat, b: Byte)
    requires Reaches(w, v, n) && v.ps == ONE && v.lock.Landing? && v.lock == Landing(p, map[p := b], true, v.lock.good)
    requires p < v.e.size && p < v.e.nbits
    requires v.e.filling == map[p := v.e.writes] && v.fills.Keys == {p} && v.fills[p].len == 1
    ensures Reaches(w, v.(e := v.e.(bits := v.e.bits + {p}, hashes := v.e.hashes[p := Blake3(map[p := b])],
                                    filling := map[]), fills := map[], lock := Free), n)
  {
    OneByte(p, v.e.size);
    var v1 := DoFillEnd(v, false);
    assert v1.fills == map[] && v1.e.filling == map[];
    Go(w, v, n, FillEnd(false), v1);
  }

  /** Piece p filled from the origin and marked. */
  lemma FillOne(w: World, v: World, n: nat, p: nat)
    requires Reaches(w, v, n) && Quiet(v) && v.fills == map[] && v.e.filling == map[]
    requires p < v.e.size <= |v.origin| && p < v.e.nbits && p < MAX_PIECES && p !in v.e.bits
    ensures Reaches(w, v.(e := v.e.(bits := v.e.bits + {p}, cache := v.e.cache[p := v.origin[p]],
                                    hashes := v.e.hashes[p := Blake3(map[p := v.origin[p]])])), n)
  {
    var b := v.origin[p];
    var good := if Dirty(v, p) then {} else {p};
    Fetch(w, v, n, p);
    var v1 := v.(e := v.e.(filling := map[p := v.e.writes]), fills := map[p := Fill(1, None, Some(map[p := b]))]);
    LandAs(w, v1, n, p, b, None, good);
    var v2 := v1.(e := v1.e.(cache := v1.e.cache[p := b]), lock := Landing(p, map[p := b], true, good));
    Finish(w, v2, n, p, b);
  }

  /** A cold file with piece p filled. */
  function Filled(bytes: seq<Byte>, p: nat): World
    requires p < |bytes|
  {
    With(Of(|bytes|, |bytes|, {p}, map[p := bytes[p]], map[p := Blake3(map[p := bytes[p]])], 0, Id(0)), bytes, 0,
        Idle, map[])
  }

  lemma ColdFill(bytes: seq<Byte>, p: nat)
    requires p < |bytes| < 100
    ensures Reaches(Cold(bytes), Filled(bytes, p), 0)
  {
    var w := Cold(bytes);
    ColdReaches(bytes);
    FillOne(w, w, 0, p);
    FilledIs(bytes, p);
  }

  lemma FilledIs(bytes: seq<Byte>, p: nat)
    requires p < |bytes|
    ensures var w := Cold(bytes);
      w.(e := w.e.(bits := w.e.bits + {p}, cache := w.e.cache[p := w.origin[p]],
                   hashes := w.e.hashes[p := Blake3(map[p := w.origin[p]])])) == Filled(bytes, p)
  {
    var d := Blake3(map[p := bytes[p]]);
    assert {} + {p} == {p} && map[][p := bytes[p]] == map[p := bytes[p]] && map[][p := d] == map[p := d];
  }

  lemma GoIssue(w: World, v: World, n: nat, off: nat, data: seq<Byte>)
    requires Reaches(w, v, n) && CanWriteIssue(v, data)
    ensures Reaches(w, DoWriteIssue(v, off, data), n)
  {
    Go(w, v, n, WriteIssue(off, data), DoWriteIssue(v, off, data));
  }

  lemma GoLand(w: World, v: World, n: nat, id: OriginId)
    requires Reaches(w, v, n) && CanWriteLand(v, id)
    ensures Reaches(w, DoWriteLand(v, id), n)
  {
    Go(w, v, n, WriteLand(id), DoWriteLand(v, id));
  }

  predicate NoneClean(v: World) { forall r :: r in v.readers ==> v.readers[r].clean == {} }

  lemma QuietMove(v: World, after: seq<Byte>, id: OriginId, m: Mutation)
    requires v.lock.Free? && v.exposed == {} && NoneClean(v)
    ensures OriginMoves(v, after, id, m) == v.(origin := after, oid := id, mut := m)
  {
    var u := OriginMoves(v, after, id, m);
    forall r | r in v.readers ensures u.readers[r] == v.readers[r] {
      assert u.readers[r].clean == {};
    }
    assert u.readers == v.readers;
  }

  /** One byte written and landed at the origin, its stat still to come. */
  lemma WriteOne(w: World, v: World, n: nat, i: nat, b: Byte, id: int)
    requires Reaches(w, v, n) && Quiet(v) && v.mut.Idle? && NoneClean(v) && Newer(v.oid, Id(id))
    ensures Reaches(w, v.(origin := Overwrite(v.origin, i, [b]), oid := Id(id), mut := Write(i, [b], Landed)), n)
  {
    GoIssue(w, v, n, i, [b]);
    var v1 := v.(mut := Write(i, [b], Issued));
    GoLand(w, v1, n, Id(id));
    QuietMove(v1, Overwrite(v.origin, i, [b]), Id(id), Write(i, [b], Landed));
  }

  lemma GoTrunc(w: World, v: World, n: nat, size: nat, id: OriginId)
    requires Reaches(w, v, n) && v.mut.Idle? && Newer(v.oid, id)
    ensures Reaches(w, DoTruncLand(DoTruncIssue(v, size), id), n)
  {
    Go(w, v, n, TruncIssue(size), DoTruncIssue(v, size));
    Go(w, DoTruncIssue(v, size), n, TruncLand(id), DoTruncLand(DoTruncIssue(v, size), id));
  }

  /** One truncate at the origin, its apply still to come. */
  lemma TruncOne(w: World, v: World, n: nat, size: nat, id: int)
    requires Reaches(w, v, n) && Quiet(v) && v.mut.Idle? && NoneClean(v) && Newer(v.oid, Id(id))
    ensures Reaches(w, v.(origin := Resized(v.origin, size), oid := Id(id), mut := Trunc(size, true)), n)
  {
    GoTrunc(w, v, n, size, Id(id));
    QuietMove(v.(mut := Trunc(size, false)), Resized(v.origin, size), Id(id), Trunc(size, true));
  }

  lemma GoCopyPwrite(w: World, v: World, n: nat, keep: set<nat>)
    requires Reaches(w, v, n) && CanCopyPwrite(v)
    ensures Reaches(w, DoCopyPwrite(v, keep), n)
  {
    Go(w, v, n, CopyPwrite(keep), DoCopyPwrite(v, keep));
  }

  lemma GoCopyEnd(w: World, v: World, n: nat)
    requires Reaches(w, v, n) && CanCopyEnd(v)
    ensures Reaches(w, DoCopyEnd(v, false), n)
  {
    Go(w, v, n, CopyEnd(false), DoCopyEnd(v, false));
  }

  lemma PwriteOne(v: World, i: nat, b: Byte)
    requires v.mut.Write? && v.mut.off == i && v.mut.data == [b] && !Busy(v)
    ensures DoCopyPwrite(v, {i}) == v.(e := v.e.(cache := v.e.cache[i := b]), lock := Copying(true))
  {
    assert Extend(i, [b]).Keys <= {i};
    assert v.e.cache + Restrict(Extend(i, [b]), {i}) == v.e.cache[i := b];
  }

  lemma EndOne(v: World, i: nat, b: Byte, note: Option<OriginId>)
    requires v.ps == ONE && CanCopyEnd(v) && v.lock.copied && v.mut.off == i && v.mut.data == [b] &&
          v.mut.phase.note == note
    requires i < v.e.nbits && i < MAX_PIECES - 1
    requires i in v.e.bits && i in v.e.hashes ==> v.e.hashes[i] != Blake3(map[i := b])
    ensures DoCopyEnd(v, false) ==
            v.(e := v.e.(writes := v.e.writes + 1, bits := v.e.bits + {i},
                hashes := v.e.hashes[i := Blake3(map[i := b])]),
               mut := if note.Some? then v.mut.(phase := Noting(note.value)) else Idle, lock := Free)
  {
    MarkOne(v.e, i, b);
  }

  /** The cache copy of a sized write of one byte, with no transfer in flight. */
  lemma CopyOne(w: World, v: World, n: nat, i: nat, b: Byte, stale: bool, note: Option<OriginId>)
    requires Reaches(w, v, n) && Quiet(v) && v.readers == map[] && v.mut == Write(i, [b], Sized(stale, note))
    requires i < v.e.nbits && i < MAX_PIECES - 1
    requires i in v.e.bits && i in v.e.hashes ==> v.e.hashes[i] != Blake3(map[i := b])
    ensures Reaches(w, v.(e := v.e.(cache := v.e.cache[i := b], writes := v.e.writes + 1, bits := v.e.bits + {i},
                                    hashes := v.e.hashes[i := Blake3(map[i := b])]),
                          mut := if note.Some? then Write(i, [b], Noting(note.value)) else Idle), n)
  {
    PwriteStep(w, v, n, i, b);
    var v1 := v.(e := v.e.(cache := v.e.cache[i := b]), lock := Copying(true));
    EndStep(w, v1, n, i, b, note);
    var m := if note.Some? then Write(i, [b], Noting(note.value)) else Idle;
    CopiedWorld(v, i, b, m);
    SameWorld(w, v1.(e := v1.e.(writes := v1.e.writes + 1, bits := v1.e.bits + {i},
                                hashes := v1.e.hashes[i := Blake3(map[i := b])]), mut := m, lock := Free),
              v.(e := v.e.(cache := v.e.cache[i := b], writes := v.e.writes + 1, bits := v.e.bits + {i},
                           hashes := v.e.hashes[i := Blake3(map[i := b])]), mut := m), n);
  }

  lemma SameWorld(w: World, u: World, v: World, n: nat)
    requires Reaches(w, u, n) && u == v
    ensures Reaches(w, v, n)
  {
  }

  lemma CopiedWorld(v: World, i: nat, b: Byte, m: Mutation)
    requires v.lock.Free?
    ensures
      var u := v.(e := v.e.(cache := v.e.cache[i := b]), lock := Copying(true));
      u.(e := u.e.(writes := u.e.writes + 1, bits := u.e.bits + {i}, hashes := u.e.hashes[i := Blake3(map[i := b])]),
         mut := m, lock := Free) ==
      v.(e := v.e.(cache := v.e.cache[i := b], writes := v.e.writes + 1, bits := v.e.bits + {i},
                   hashes := v.e.hashes[i := Blake3(map[i := b])]), mut := m)
  {
  }

  lemma PwriteStep(w: World, v: World, n: nat, i: nat, b: Byte)
    requires Reaches(w, v, n) && CanCopyPwrite(v) && v.mut.off == i && v.mut.data == [b] && !Busy(v)
    ensures Reaches(w, v.(e := v.e.(cache := v.e.cache[i := b]), lock := Copying(true)), n)
  {
    PwriteOne(v, i, b);
    GoCopyPwrite(w, v, n, {i});
  }

  lemma EndStep(w: World, v: World, n: nat, i: nat, b: Byte, note: Option<OriginId>)
    requires Reaches(w, v, n) && v.ps == ONE && CanCopyEnd(v) && v.lock.copied && v.mut.off == i && v.mut.data == [b]
    requires v.mut.phase.note == note && i < v.e.nbits && i < MAX_PIECES - 1
    requires i in v.e.bits && i in v.e.hashes ==> v.e.hashes[i] != Blake3(map[i := b])
    ensures Reaches(w, v.(e := v.e.(writes := v.e.writes + 1, bits := v.e.bits + {i},
            hashes := v.e.hashes[i := Blake3(map[i := b])]),
                          mut := if note.Some? then v.mut.(phase := Noting(note.value)) else Idle, lock := Free), n)
  {
    EndOne(v, i, b, note);
    GoCopyEnd(w, v, n);
  }

  /* ---- a stale stat ---- */

  lemma GoOwnStat(w: World, v: World, n: nat, deferred: bool)
    requires Reaches(w, v, n) && CanOwnStat(v, deferred, false) && OwnStatFits(v, |v.origin|, v.oid, deferred, false)
    ensures Reaches(w, DoOwnStat(v, |v.origin|, v.oid, deferred, false, false), n)
  {
    Go(w, v, n, OwnStat(|v.origin|, v.oid, deferred, false, false),
        DoOwnStat(v, |v.origin|, v.oid, deferred, false, false));
  }

  lemma GoXfer(w: World, v: World, n: nat, r: nat)
    requires Reaches(w, v, n) && CanBeginXfer(v, r) && v.readers == map[]
    ensures Reaches(w, v.(readers := map[r := Reader({}, {})]), n)
  {
    assert v.readers[r := Reader({}, {})] == map[r := Reader({}, {})];
    Go(w, v, n, BeginXfer(r), DoBeginXfer(v, r));
  }

  lemma GoEnd(w: World, v: World, n: nat, r: nat)
    requires Reaches(w, v, n) && v.readers.Keys == {r}
    ensures Reaches(w, v.(readers := map[]), n)
  {
    assert v.readers - {r} == map[];
    Go(w, v, n, EndXfer(r), DoEndXfer(v, r));
  }

  function Of(size: nat, nbits: nat, bits: set<nat>, cache: Extent, hashes: map<nat, Digest>, writes: nat,
      id: OriginId): Entry {
    Entry(size, nbits, bits, 0, cache, hashes, writes, map[], id, None, false, None)
  }

  /** A quiet world at origin identity `at`. */
  function With(e: Entry, origin: seq<Byte>, at: int, m: Mutation, readers: map<nat, Reader>): World {
    World(ONE, e, origin, Id(at), m, Free, map[], readers, 0, map[], {}, {})
  }

  /** Byte 6 is appended and its size step done. */
  lemma StaleA() returns (v: World)
    ensures Reaches(Cold([5]), v, 0)
    ensures v == With(Of(2, 2, {}, map[], map[], 0, Id(1)), [5, 6], 1, Write(1, [6], Sized(true, None)), map[])
  {
    ColdReaches([5]);
    WriteOne(Cold([5]), Cold([5]), 0, 1, 6, 1);
    assert Overwrite([5], 1, [6]) == [5, 6];
    var v1 := Cold([5]).(origin := [5, 6], oid := Id(1), mut := Write(1, [6], Landed));
    GoOwnStat(Cold([5]), v1, 0, false);
    v := v1.(e := v1.e.(size := 2, nbits := 2, id := Id(1)), mut := Write(1, [6], Sized(true, None)));
    AppendSized(v1);
  }

  lemma AppendSized(v: World)
    requires v == With(Of(1, 1, {}, map[], map[], 0, Id(0)), [5, 6], 1, Write(1, [6], Landed), map[])
    ensures DoOwnStat(v, 2, Id(1), false, false, false) ==
            v.(e := v.e.(size := 2, nbits := 2, id := Id(1)), mut := Write(1, [6], Sized(true, None)))
  {
    OneByte(1, 2);
    assert Resize(v.e, 2).bits == {};
  }

  lemma StaleXfer() returns (v: World)
    ensures Reaches(Cold([5]), v, 0)
    ensures v == With(Of(2, 2, {}, map[], map[], 0, Id(1)), [5, 6], 1, Write(1, [6], Sized(true, None)),
                      map[0 := Reader({}, {})])
  {
    var v0 := StaleA();
    GoXfer(Cold([5]), v0, 0, 0);
    v := v0.(readers := map[0 := Reader({}, {})]);
  }

  /** A stat sampled before the append is applied under a transfer. */
  lemma StaleB() returns (v: World)
    ensures Reaches(Cold([5]), v, 1)
    ensures v == With(Of(1, 2, {}, map[], map[], 1, Id(0)), [5, 6], 1, Write(1, [6], Sized(true, None)), map[])
  {
    var v1 := StaleXfer();
    LateStat(v1);
    var v2 := v1.(e := v1.e.(size := 1, writes := 1, id := Id(0)));
    Stray(Cold([5]), v1, 0, Stat(1, Id(0), false, false), v2);
    GoEnd(Cold([5]), v2, 1, 0);
    v := v2.(readers := map[]);
  }

  lemma LateStat(v: World)
    requires v == With(Of(2, 2, {}, map[], map[], 0, Id(1)), [5, 6], 1, Write(1, [6], Sized(true, None)),
          map[0 := Reader({}, {})])
    ensures CanStat(v, false) && !StatFits(v, 1, Id(0), false)
    ensures DoStat(v, 1, Id(0), false, false) == v.(e := v.e.(size := 1, writes := 1, id := Id(0)))
  {
  }

  /** The copy now marks a piece past the recorded size. */
  lemma StaleC() returns (v: World)
    ensures Reaches(Cold([5]), v, 1)
    ensures v == With(Of(1, 2, {1}, map[1 := 6], map[1 := Blake3(map[1 := 6])], 2, Id(0)), [5, 6], 1, Idle, map[])
  {
    var v0 := StaleB();
    CopyOne(Cold([5]), v0, 1, 1, 6, true, None);
    v := v0.(e := v0.e.(cache := v0.e.cache[1 := 6], writes := 2, bits := v0.e.bits + {1},
                        hashes := v0.e.hashes[1 := Blake3(map[1 := 6])]), mut := Idle);
  }

  /** A truncate to the recorded size changes nothing in the entry. */
  lemma StaleD() returns (v: World)
    ensures Reaches(Cold([5]), v, 1)
    ensures v == With(Of(1, 2, {1}, map[1 := 6], map[1 := Blake3(map[1 := 6])], 2, Id(0)), [5], 2, Idle,
                      map[0 := Reader({}, {})])
  {
    var v0 := StaleC();
    GoXfer(Cold([5]), v0, 1, 0);
    var v1 := v0.(readers := map[0 := Reader({}, {})]);
    TruncOne(Cold([5]), v1, 1, 1, 2);
    assert Resized([5, 6], 1) == [5];
    var v2 := v1.(origin := [5], oid := Id(2), mut := Trunc(1, true));
    v := DoTruncApply(v2, false, false, false);
    Go(Cold([5]), v2, 1, TruncApply(false, false, false), v);
  }

  /** One stat applied after it went stale, and a later append uncovers a mark
      whose byte the origin does not have: mark honesty needs `StatFits`. */
  lemma StaleStatBreaksHonesty() returns (v: World)
    ensures Reaches(Cold([5]), v, 1)
    ensures Marked(v, 1) && !InFlight(v.mut, 1) && CacheByte(v, 1) == 6 && v.origin == [5, 0, 7]
  {
    var v0 := StaleD();
    WriteOne(Cold([5]), v0, 1, 2, 7, 3);
    assert Overwrite([5], 2, [7]) == [5, 0, 7];
    var v1 := v0.(origin := [5, 0, 7], oid := Id(3), mut := Write(2, [7], Landed));
    GoOwnStat(Cold([5]), v1, 1, true);
    v := DoOwnStat(v1, 3, Id(3), true, false, false);
    Uncovered(v1);
  }

  lemma Uncovered(v: World)
    requires v == With(Of(1, 2, {1}, map[1 := 6], map[1 := Blake3(map[1 := 6])], 2, Id(0)), [5, 0, 7], 3,
          Write(2, [7], Landed),
                       map[0 := Reader({}, {})])
    ensures var u := DoOwnStat(v, 3, Id(3), true, false, false);
      Marked(u, 1) && !InFlight(u.mut, 1) && CacheByte(u, 1) == 6 && u.origin == [5, 0, 7]
  {
    OneByte(1, 1);
  }

  /* ---- a stat after a write that lags behind it ---- */

  lemma GoLagging(w: World, v: World, n: nat, size: nat)
    requires Reaches(w, v, n) && CanOwnStat(v, false, false) && OwnStatFits(v, size, v.e.id, false, false)
    ensures Reaches(w, DoOwnStat(v, size, v.e.id, false, false, false), n)
  {
    Go(w, v, n, OwnStat(size, v.e.id, false, false, false), DoOwnStat(v, size, v.e.id, false, false, false));
  }

  /** Byte 6 is appended; the stat still shows one byte, so the grow follows. */
  lemma LagA() returns (v: World)
    ensures Reaches(Cold([5]), v, 0)
    ensures v == With(Of(2, 2, {}, map[], map[], 0, Id(0)), [5, 6], 1, Write(1, [6], Sized(false, Some(Id(0)))), map[])
  {
    var w := Cold([5]);
    ColdReaches([5]);
    WriteOne(w, w, 0, 1, 6, 1);
    assert Overwrite([5], 1, [6]) == [5, 6];
    var v1 := w.(origin := [5, 6], oid := Id(1), mut := Write(1, [6], Landed));
    GoLagging(w, v1, 0, 1);
    var v2 := v1.(mut := Write(1, [6], Observed(Some(Id(0)))));
    v := DoOwnGrow(v2, false, false);
    assert Resize(v2.e, 2).bits == {};
    Go(w, v2, 0, OwnGrow(false, false), v);
  }

  /** The append returns; the entry still has the identity from before it. */
  lemma LagB() returns (v: World)
    ensures Reaches(Cold([5]), v, 0)
    ensures v == With(Of(2, 2, {1}, map[1 := 6], map[1 := Blake3(map[1 := 6])], 1, Id(0)), [5, 6], 1, Idle, map[])
  {
    var w := Cold([5]);
    var v0 := LagA();
    CopyOne(w, v0, 0, 1, 6, false, Some(Id(0)));
    var v1 := v0.(e := v0.e.(cache := v0.e.cache[1 := 6], writes := 1, bits := v0.e.bits + {1},
                             hashes := v0.e.hashes[1 := Blake3(map[1 := 6])]), mut := Write(1, [6], Noting(Id(0))));
    v := DoOwnNote(v1, false);
    Go(w, v1, 0, OwnNote(false), v);
  }

  /** A second write, of byte 0, whose stat still shows one byte: the entry
      shrinks to it, and a read of the byte appended before is cut short. */
  lemma LaggingStatHidesOwnBytes() returns (v: World)
    ensures Reaches(Cold([5]), v, 0)
    ensures v.e.size == 1 && v.origin == [7, 6] && !InFlight(v.mut, 1)
  {
    var w := Cold([5]);
    var v0 := LagB();
    WriteOne(w, v0, 0, 0, 7, 2);
    assert Overwrite([5, 6], 0, [7]) == [7, 6];
    var v1 := v0.(origin := [7, 6], oid := Id(2), mut := Write(0, [7], Landed));
    GoLagging(w, v1, 0, 1);
    v := DoOwnStat(v1, 1, Id(0), false, false, false);
  }

  /* ---- a truncate keeps the entry's identity ---- */

  lemma GoTruncApply(w: World, v: World, n: nat)
    requires Reaches(w, v, n) && v.mut.Trunc? && v.mut.landed && v.lock.Free? && !Busy(v)
    ensures Reaches(w, DoTruncApply(v, true, true, false), n)
  {
    Go(w, v, n, TruncApply(true, true, false), DoTruncApply(v, true, true, false));
  }

  const STALE: Manifest := Manifest(ONE, 2, map[1 := Blake3(map[1 := 6])], Some(Id(0)), false)

  lemma GoForeign(w: World, v: World, n: nat, m: Manifest)
    requires Reaches(w, v, n) && PublishedOk(m, v.origin, v.oid) && !m.mtimeOld && v.published == {}
    ensures Reaches(w, v.(published := {m}), n)
  {
    assert m.(mtimeOld := false) == m && {} + {m} == {m};
    Go(w, v, n, ForeignPublish(m), DoPublish(v, m));
  }

  lemma StaleDescribes()
    ensures Describes(STALE, [5, 6])
  {
    OneByte(1, 2);
  }

  lemma RewindPublished() returns (v: World)
    ensures Reaches(Cold([5, 6]), v, 0) && v == Cold([5, 6]).(published := {STALE})
  {
    ColdReaches([5, 6]);
    StaleDescribes();
    GoForeign(Cold([5, 6]), Cold([5, 6]), 0, STALE);
    v := Cold([5, 6]).(published := {STALE});
  }

  /** Another node publishes; then down to one byte and back to two: the bytes
      changed, `origin_id` did not. */
  lemma RewindA() returns (v: World)
    ensures Reaches(Cold([5, 6]), v, 0)
    ensures v == With(Of(2, 2, {}, map[], map[], 2, Id(0)).(storage := 2), [5, 0], 2, Idle, map[])
                 .(published := {STALE})
  {
    var w := Cold([5, 6]);
    var v0 := RewindPublished();
    TruncOne(w, v0, 0, 1, 1);
    assert Resized([5, 6], 1) == [5];
    var v1 := v0.(origin := [5], oid := Id(1), mut := Trunc(1, true));
    GoTruncApply(w, v1, 0);
    var v2 := DoTruncApply(v1, true, true, false);
    assert v2.e.cache == map[];
    TruncOne(w, v2, 0, 2, 2);
    assert Resized([5], 2) == [5, 0];
    var v3 := v2.(origin := [5, 0], oid := Id(2), mut := Trunc(2, true));
    GoTruncApply(w, v3, 0);
    v := DoTruncApply(v3, true, true, false);
    assert v.e.cache == map[];
  }

  /** A digest of a byte that is not the origin's does not fit, and an entry behind
      the origin, or a manifest without identity, has no say in it. */
  lemma ForeignByte(v: World, m: Manifest, p: nat, i: nat)
    requires 0 in v.loads && ManifestFits(v.e, m, v.loads[0], v.ps) && p in m.entries && p !in v.e.hashes
    requires i in m.entries[p].of && !Dirty(v, i) && i < |v.origin| && v.origin[i] != m.entries[p].of[i]
    requires i < v.e.size && PieceOf(i, v.ps) == p < MAX_PIECES && !(m.identity.Some? && v.e.id == v.oid)
    ensures !MergeFits(v, 0, m) && !TakesAny(v, m.identity.Some?)
  {
    assert !DigestFits(v, p, m.entries[p]);
    assert !Immune(v, i);
  }

  /** The manifest of the object as it was before the truncates is admitted. */
  lemma RewindB() returns (v: World)
    ensures Reaches(Cold([5, 6]), v, 1)
    ensures v == With(Of(2, 2, {}, map[], STALE.entries, 2, Id(0)).(storage := 2, manifestSize := Some(2)), [5, 0], 2,
            Idle, map[])
                 .(published := {STALE})
  {
    var w := Cold([5, 6]);
    var v0 := RewindA();
    var v1 := v0.(e := v0.e.(loading := true), loads := map[0 := 2]);
    GoLoad(w, v0, 0);
    v := v0.(e := v0.e.(hashes := STALE.entries, manifestSize := Some(2)));
    OneByte(1, 2);
    ForeignByte(v1, STALE, 1, 1);
    StrayMerge(w, v1, 0, STALE, v);
  }

  lemma GoLoad(w: World, v: World, n: nat)
    requires Reaches(w, v, n) && v.lock.Free? && v.loads == map[] && !v.e.loading && v.e.manifestSize == None
    ensures Reaches(w, v.(e := v.e.(loading := true), loads := map[0 := v.e.writes]), n)
  {
    assert v.loads[0 := v.e.writes] == map[0 := v.e.writes];
    Go(w, v, n, LoadStart(0), DoLoadStart(v, 0));
  }

  lemma StrayMerge(w: World, v: World, n: nat, m: Manifest, u: World)
    requires Reaches(w, v, n) && v.lock.Free? && v.loads == map[0 := v.e.writes] && v.e.hashes == map[]
    requires ManifestFits(v.e, m, v.e.writes, v.ps) && CanLoadMerge(v, 0, m)
    requires !MergeFits(v, 0, m) && !TakesAny(v, m.identity.Some?)
    requires u == v.(e := v.e.(hashes := m.entries, manifestSize := Some(m.size), loading := false), loads := map[])
    ensures Reaches(w, u, n + 1)
  {
    assert m.entries + map[] == m.entries;
    assert map[0 := v.e.writes] - {0} == map[];
    Stray(w, v, n, LoadMerge(0, m), u);
  }

  lemma GoWant(w: World, v: World, n: nat, p: nat)
    requires Reaches(w, v, n) && CanWantHash(v, p)
    ensures Reaches(w, DoWantHash(v, p), n)
  {
    Go(w, v, n, WantHash(p), DoWantHash(v, p));
  }

  lemma GoPeer(w: World, v: World, n: nat, p: nat, buf: Extent)
    requires Reaches(w, v, n) && CanPeerAdmit(v, p, buf)
    ensures Reaches(w, DoHold(v, p, buf), n)
  {
    Go(w, v, n, PeerAdmit(p, buf), DoHold(v, p, buf));
  }

  /** A peer brings the byte the trusted digest asks for. */
  lemma PeerHolds(w: World, v: World, n: nat, p: nat, b: Byte)
    requires Reaches(w, v, n) && Quiet(v) && v.fills == map[] && v.e.filling == map[]
    requires p < v.e.size && p < MAX_PIECES && p !in v.e.bits
    requires p in v.e.hashes && v.e.hashes[p] == Blake3(map[p := b])
    ensures Reaches(w, v.(e := v.e.(filling := map[p := v.e.writes]),
                          fills := map[p := Fill(1, Some(Blake3(map[p := b])), Some(map[p := b]))]), n)
  {
    var f := Fill(1, None, None);
    var v1 := v.(e := v.e.(filling := map[p := v.e.writes]), fills := map[p := f]);
    ClaimOne(w, v, n, p);
    GoWant(w, v1, n, p);
    var g := f.(want := Some(Blake3(map[p := b])));
    assert v1.fills[p := g] == map[p := g];
    OneByte(p, p + 1);
    assert FillBytes(g, p, ONE) == {p};
    GoPeer(w, v1.(fills := map[p := g]), n, p, map[p := b]);
    assert map[p := g][p := g.(buf := Some(map[p := b]))] == map[p := g.(buf := Some(map[p := b]))];
  }

  /** ... and the piece is marked with it. */
  lemma PeerFill(w: World, v: World, n: nat, p: nat, b: Byte)
    requires Reaches(w, v, n) && Quiet(v) && v.mut.Idle? && v.fills == map[] && v.e.filling == map[]
    requires p < v.e.size && p < v.e.nbits && p < MAX_PIECES && p !in v.e.bits
    requires p in v.e.hashes && v.e.hashes[p] == Blake3(map[p := b])
    ensures Reaches(w, v.(e := v.e.(bits := v.e.bits + {p}, cache := v.e.cache[p := b])), n)
  {
    var d := Blake3(map[p := b]);
    PeerHolds(w, v, n, p, b);
    var v1 := v.(e := v.e.(filling := map[p := v.e.writes]), fills := map[p := Fill(1, Some(d), Some(map[p := b]))]);
    Land(w, v1, n, p, b, Some(d));
    var v2 := v1.(e := v1.e.(cache := v1.e.cache[p := b]), lock := Landing(p, map[p := b], true, {p}));
    Finish(w, v2, n, p, b);
    assert v.e.hashes[p := d] == v.e.hashes;
  }

  /** A truncate leaves `origin_id` as it was, so an old manifest of the same
      length still fits, and a peer fill that looked at `writes` before both of
      them is verified against it and marks a byte the origin lost:
      verified fills need `MergeFits`. */
  lemma OldManifestBreaksPeerFill() returns (v: World)
    ensures Reaches(Cold([5, 6]), v, 1)
    ensures Marked(v, 1) && v.mut.Idle? && CacheByte(v, 1) == 6 && v.origin == [5, 0]
  {
    var v0 := RewindB();
    OneByte(1, 2);
    PeerFill(Cold([5, 6]), v0, 1, 1, 6);
    v := v0.(e := v0.e.(bits := v0.e.bits + {1}, cache := v0.e.cache[1 := 6]));
  }

  /* ---- a manifest without an identity ---- */

  /** A restart that sees the object as it is and has nothing to save. */
  function AsIs(v: World): Look { Now(v, false, false, false) }

  lemma GoCrash(w: World, v: World, n: nat)
    requires Reaches(w, v, n) && LookFits(v, AsIs(v)) && !Mistaken(v, AsIs(v))
    ensures Reaches(w, Reloaded(v, AsIs(v)), n)
  {
    Go(w, v, n, Crash(AsIs(v)), Reloaded(v, AsIs(v)));
  }

  /** Without a sidecar the next entry is empty. */
  lemma RestartEmpty(w: World, v: World, n: nat, id: int)
    requires Reaches(w, v, n) && v.e.sidecar.None? && v.oid == Id(id) && v.ps == ONE && !v.mut.Rewritten?
    ensures Reaches(w, World(ONE, Of(|v.origin|, Count(|v.origin|, ONE), {}, v.e.cache, map[], 0, Id(id))
                                    .(storage := v.e.storage + 1),
                             v.origin, v.oid, Idle, Free, map[], map[], 0, map[], v.published, {}), n)
  {
    GoCrash(w, v, n);
  }

  const UNNAMED: Manifest := Manifest(ONE, 1, map[0 := Blake3(map[0 := 5])], None, false)

  /** A node that writes no trailer publishes; byte 5 is rewritten to 9, and the
      process restarts before its stat. */
  lemma UnnamedA() returns (v: World)
    ensures Reaches(Cold([5]), v, 0)
    ensures v == With(Of(1, 1, {}, map[], map[], 0, Id(1)).(storage := 1), [9], 1, Idle, map[]).(published := {UNNAMED})
  {
    var w := Cold([5]);
    ColdReaches([5]);
    GoForeign(w, w, 0, UNNAMED);
    var v0 := w.(published := {UNNAMED});
    WriteOne(w, v0, 0, 0, 9, 1);
    assert Overwrite([5], 0, [9]) == [9];
    var v1 := v0.(origin := [9], oid := Id(1), mut := Write(0, [9], Landed));
    RestartEmpty(w, v1, 0, 1);
    OneByte(0, 1);
    v := Reloaded(v1, AsIs(v1));
  }

  /** The digest of the byte before, in a manifest that names no identity, is
      admitted although the entry's own identity is current and nothing is in
      flight; a peer that still has the old byte is believed. */
  lemma UnnamedManifestBreaksPeerFill() returns (v: World)
    ensures Reaches(Cold([5]), v, 1)
    ensures Marked(v, 0) && v.mut.Idle? && v.e.id == v.oid && v.e.writes == 0 && CacheByte(v, 0) == 5 && v.origin == [9]
  {
    var w := Cold([5]);
    var v0 := UnnamedA();
    GoLoad(w, v0, 0);
    var v1 := v0.(e := v0.e.(loading := true), loads := map[0 := 0]);
    var v2 := v0.(e := v0.e.(hashes := UNNAMED.entries, manifestSize := Some(1)));
    OneByte(0, 1);
    ForeignByte(v1, UNNAMED, 0, 0);
    StrayMerge(w, v1, 0, UNNAMED, v2);
    PeerFill(w, v2, 1, 0, 5);
    v := v2.(e := v2.e.(bits := v2.e.bits + {0}, cache := v2.e.cache[0 := 5]));
  }

  /* ---- a manifest merged between a write's size step and its copy ---- */

  /** Piece 1 is held and its mark saved; piece 0 is not. */
  lemma SavedA() returns (v: World)
    ensures Reaches(Cold([7, 5]), v, 0)
    ensures v == With(Of(2, 2, {1}, map[1 := 5], map[1 := Blake3(map[1 := 5])], 0, Id(0))
                        .(sidecar := Some(Sidecar(2, 2, {1}, Id(0)))),
                      [7, 5], 0, Idle, map[])
  {
    var w := Cold([7, 5]);
    ColdReaches([7, 5]);
    Fetch(w, w, 0, 1);
    var v1 := w.(e := w.e.(filling := map[1 := 0]), fills := map[1 := Fill(1, None, Some(map[1 := 5]))]);
    Land(w, v1, 0, 1, 5, None);
    var v2 := v1.(e := v1.e.(cache := map[1 := 5]), lock := Landing(1, map[1 := 5], true, {1}));
    assert v1.e.cache[1 := 5] == map[1 := 5];
    v := DoFillEnd(v2, true);
    SavedFinish(v2);
    Go(w, v2, 0, FillEnd(true), v);
  }

  lemma SavedFinish(v: World)
    requires v == With(Of(2, 2, {}, map[1 := 5], map[], 0, Id(0)).(filling := map[1 := 0]), [7, 5], 0, Idle, map[])
                  .(fills := map[1 := Fill(1, None, Some(map[1 := 5]))], lock := Landing(1, map[1 := 5], true, {1}))
    ensures DoFillEnd(v, true) ==
            With(Of(2, 2, {1}, map[1 := 5], map[1 := Blake3(map[1 := 5])], 0, Id(0))
                   .(sidecar := Some(Sidecar(2, 2, {1}, Id(0)))),
                 [7, 5], 0, Idle, map[])
  {
    OneByte(1, 2);
    var u := DoFillEnd(v, true);
    assert u.fills == map[] && u.e.filling == map[] && u.e.bits == {1};
    assert u.e.hashes == map[1 := Blake3(map[1 := 5])];
    assert u.exposed == {};
  }

  /** After a restart the mark is back and its digest is gone. */
  lemma SavedB() returns (v: World)
    ensures Reaches(Cold([7, 5]), v, 0)
    ensures v == With(Of(2, 2, {1}, map[1 := 5], map[], 0, Id(0)).(storage := 1,
            sidecar := Some(Sidecar(2, 2, {1}, Id(0)))),
                      [7, 5], 0, Idle, map[])
  {
    var v0 := SavedA();
    OneByte(1, 2);
    assert LoadBits(v0.e.sidecar, 2, Id(0), ONE) == {1};
    forall i ensures !MistakenAt(v0, AsIs(v0), i) {
    }
    GoCrash(Cold([7, 5]), v0, 0);
    v := Reloaded(v0, AsIs(v0));
  }

  const CURRENT: Manifest := Manifest(ONE, 2, map[1 := Blake3(map[1 := 9])], Some(Id(1)), false)

  lemma CurrentDescribes()
    ensures Describes(CURRENT, [7, 9])
  {
    OneByte(1, 2);
  }

  /** The last byte is rewritten, another node publishes the result, and the entry
      adopts the new identity; a transfer runs. */
  lemma BetweenA() returns (v: World)
    ensures Reaches(Cold([7, 5]), v, 0)
    ensures v == With(Of(2, 2, {1}, map[1 := 5], map[], 0, Id(1)).(storage := 1,
            sidecar := Some(Sidecar(2, 2, {1}, Id(0)))),
                      [7, 9], 1, Write(1, [9], Sized(true, None)), map[0 := Reader({}, {})]).(published := {CURRENT})
  {
    var w := Cold([7, 5]);
    var v0 := SavedB();
    WriteOne(w, v0, 0, 1, 9, 1);
    assert Overwrite([7, 5], 1, [9]) == [7, 9];
    CurrentDescribes();
    GoForeign(w, v0.(origin := [7, 9], oid := Id(1), mut := Write(1, [9], Landed)), 0, CURRENT);
    var v1 := v0.(origin := [7, 9], oid := Id(1), mut := Write(1, [9], Landed), published := {CURRENT});
    GoOwnStat(w, v1, 0, false);
    var v2 := v1.(e := v1.e.(id := Id(1)), mut := Write(1, [9], Sized(true, None)));
    assert DoOwnStat(v1, 2, Id(1), false, false, false) == v2;
    GoXfer(w, v2, 0, 0);
    v := v2.(readers := map[0 := Reader({}, {})]);
  }

  /** Nor does one of a byte that the marked cache is behind on. */
  lemma BehindByte(v: World, m: Manifest, p: nat, i: nat)
    requires 0 in v.loads && ManifestFits(v.e, m, v.loads[0], v.ps) && p in m.entries && p !in v.e.hashes
    requires p in v.e.bits && !v.lock.Copying? && i in m.entries[p].of && i in v.e.cache &&
          v.e.cache[i] != m.entries[p].of[i]
    requires i < v.e.size && PieceOf(i, v.ps) == p < MAX_PIECES && v.e.id == v.oid &&
          AtByte(v.origin, i, m.entries[p].of[i])
    ensures !MergeFits(v, 0, m) && !TakesAny(v, true)
  {
    assert !DigestFits(v, p, m.entries[p]);
    assert !Matched(v, i);
  }

  /** The manifest of the object as it is now, loaded for piece 0, fills in the
      digest of the write. */
  lemma BetweenB() returns (v: World)
    ensures Describes(CURRENT, [7, 9]) && Reaches(Cold([7, 5]), v, 1)
    ensures v == With(Of(2, 2, {1}, map[1 := 5], CURRENT.entries, 0, Id(1)).(storage := 1, manifestSize := Some(2),
                        sidecar := Some(Sidecar(2, 2, {1}, Id(0)))),
                      [7, 9], 1, Write(1, [9], Sized(true, None)), map[0 := Reader({}, {})]).(published := {CURRENT})
  {
    var w := Cold([7, 5]);
    var v0 := BetweenA();
    GoLoad(w, v0, 0);
    var v1 := v0.(e := v0.e.(loading := true), loads := map[0 := 0]);
    v := v0.(e := v0.e.(hashes := CURRENT.entries, manifestSize := Some(2)));
    CurrentDescribes();
    OneByte(1, 2);
    BehindByte(v1, CURRENT, 1, 1);
    StrayMerge(w, v1, 0, CURRENT, v);
  }

  lemma AppliedOne(e: Entry, i: nat, b: Byte)
    requires i < MAX_PIECES - 1 && i in e.bits && i in e.hashes && e.hashes[i] == Blake3(map[i := b])
    ensures CopyMark(e, i, [b], false, false, ONE) == e
  {
    CoverOne(i, e.size, b);
    OneByte(i, e.size);
    OneByte(i + 1, e.size);
  }

  /** An honest, current manifest is merged between a write's size step and its
      copy, which a transfer refuses: the retry scan finds mark and digest in place
      and takes the write for applied. The write returns, and the piece stays
      marked with the byte from before it: `MergeFits` is needed here too. */
  lemma MergeBeforeCopyHidesWrite() returns (v: World)
    ensures Reaches(Cold([7, 5]), v, 1)
    ensures Marked(v, 1) && v.mut.Idle? && v.e.writes == 0 && CacheByte(v, 1) == 5 && v.origin == [7, 9]
  {
    var w := Cold([7, 5]);
    var v0 := BetweenB();
    GoCopyPwrite(w, v0, 1, {});
    var v1 := v0.(lock := Copying(false));
    AppliedOne(v1.e, 1, 9);
    GoCopyEnd(w, v1, 1);
    v := v0.(mut := Idle);
    OneByte(1, 2);
  }

  /* ---- a publish between a write's size step and its copy ---- */

  const BAD: Manifest := Manifest(ONE, 2, map[1 := Blake3(map[1 := 8])], Some(Id(1)), false)

  /** Piece 1 is held and rewritten; the entry has the identity of the write and the
      digest from before it. */
  lemma PublishA() returns (v: World)
    ensures Reaches(Cold([7, 8]), v, 0)
    ensures v == With(Of(2, 2, {1}, map[1 := 8], map[1 := Blake3(map[1 := 8])], 0, Id(1)),
                      [7, 9], 1, Write(1, [9], Sized(true, None)), map[])
  {
    var w := Cold([7, 8]);
    ColdFill([7, 8], 1);
    var v1 := Filled([7, 8], 1);
    WriteOne(w, v1, 0, 1, 9, 1);
    assert Overwrite([7, 8], 1, [9]) == [7, 9];
    var v2 := v1.(origin := [7, 9], oid := Id(1), mut := Write(1, [9], Landed));
    GoOwnStat(w, v2, 0, false);
    v := v2.(e := v2.e.(id := Id(1)), mut := Write(1, [9], Sized(true, None)));
    assert DoOwnStat(v2, 2, Id(1), false, false, false) == v;
  }

  lemma BadSnapshot(v: World)
    requires v == With(Of(2, 2, {1}, map[1 := 8], map[1 := Blake3(map[1 := 8])], 0, Id(1)),
                       [7, 9], 1, Write(1, [9], Sized(true, None)), map[])
    ensures Snapshot(v, 2) == BAD && CanPublish(v, 2) && !PublishFits(v, 2)
    ensures DoPublish(v, Snapshot(v, 2)) == v.(published := {BAD})
  {
    OneByte(1, 2);
    assert 1 in Snapshot(v, 2).entries;
    assert Snapshot(v, 2).entries == map[1 := Blake3(map[1 := 8])];
    assert 1 in v.e.hashes[1].of && v.e.hashes[1].of[1] == 8;
    assert v.published + {BAD} == {BAD};
  }

  /** A close publishes now. */
  lemma PublishBad() returns (v: World)
    ensures Reaches(Cold([7, 8]), v, 1)
    ensures v == With(Of(2, 2, {1}, map[1 := 8], map[1 := Blake3(map[1 := 8])], 0, Id(1)),
                      [7, 9], 1, Write(1, [9], Sized(true, None)), map[]).(published := {BAD})
  {
    var v0 := PublishA();
    BadSnapshot(v0);
    v := v0.(published := {BAD});
    Stray(Cold([7, 8]), v0, 0, Publish(2), v);
  }

  /** Then the write completes, and the process restarts. */
  lemma PublishB() returns (v: World)
    ensures Reaches(Cold([7, 8]), v, 1)
    ensures v == With(Of(2, 2, {}, map[1 := 9], map[], 0, Id(1)).(storage := 1), [7, 9], 1, Idle, map[])
                 .(published := {BAD})
  {
    var w := Cold([7, 8]);
    var v1 := PublishBad();
    assert map[1 := 8][1] == 8 && map[1 := 9][1] == 9;
    CopyOne(w, v1, 1, 1, 9, true, None);
    var v2 := v1.(e := v1.e.(cache := v1.e.cache[1 := 9], writes := 1, bits := v1.e.bits + {1},
                             hashes := v1.e.hashes[1 := Blake3(map[1 := 9])]), mut := Idle);
    RestartEmpty(w, v2, 1, 1);
    OneByte(1, 2);
    v := Reloaded(v2, AsIs(v2));
  }

  lemma BadIsTaken(v: World)
    requires v.ps == ONE && v.e.bits == {} && v.e.id == v.oid
    ensures Gridded(BAD) && TakesAny(v, true)
  {
    OneByte(1, 2);
  }

  /** One publish between a write's size step and its copy puts the old digest on the
      origin under the new identity. Everything after it is in order: the write
      completes, the process restarts, the entry is current and nothing is in flight
      when the manifest is merged, and a peer that still has the old byte is believed.
      Verified peer fills need `PublishFits`. */
  lemma PublishInWindowBreaksPeerFill() returns (v: World)
    ensures Reaches(Cold([7, 8]), v, 1)
    ensures Marked(v, 1) && v.mut.Idle? && v.e.id == v.oid && v.e.writes == 0 && CacheByte(v, 1) == 8 &&
            v.origin == [7, 9]
  {
    var w := Cold([7, 8]);
    var v0 := PublishB();
    GoLoad(w, v0, 1);
    var v1 := v0.(e := v0.e.(loading := true), loads := map[0 := 0]);
    var v2 := v0.(e := v0.e.(hashes := BAD.entries, manifestSize := Some(2)));
    BadIsTaken(v1);
    TakenMerge(w, v1, 1, BAD, v2);
    OneByte(1, 2);
    PeerFill(w, v2, 1, 1, 8);
    v := v2.(e := v2.e.(bits := v2.e.bits + {1}, cache := v2.e.cache[1 := 8]));
  }

  lemma TakenMerge(w: World, v: World, n: nat, m: Manifest, u: World)
    requires Reaches(w, v, n) && v.lock.Free? && v.loads == map[0 := v.e.writes] && v.e.hashes == map[]
    requires ManifestFits(v.e, m, v.e.writes, v.ps) && CanLoadMerge(v, 0, m)
    requires Gridded(m) && TakesAny(v, m.identity.Some?)
    requires u == v.(e := v.e.(hashes := m.entries, manifestSize := Some(m.size), loading := false), loads := map[])
    ensures Reaches(w, u, n)
  {
    assert m.entries + map[] == m.entries;
    assert map[0 := v.e.writes] - {0} == map[];
    Go(w, v, n, LoadMerge(0, m), u);
  }

  /* ---- a save that breaks off after the field ---- */

  const BARE: Sidecar := Sidecar(1, 1, {0}, OriginId(0, 0, 1, false))

  /** Piece 0 is filled, and the save of its mark breaks off before the identity. */
  lemma TornA() returns (v: World)
    ensures Reaches(Cold([5]), v, 1)
    ensures v == With(Of(1, 1, {0}, map[0 := 5], map[0 := Blake3(map[0 := 5])], 0, Id(0)).(sidecar := Some(BARE)),
            [5], 0, Idle, map[])
  {
    var w := Cold([5]);
    ColdFill([5], 0);
    var v1 := Filled([5], 0);
    v := v1.(e := v1.e.(sidecar := Some(BARE)));
    TornOne(v1);
    Stray(w, v1, 0, TearSidecar(true), v);
  }

  lemma TornOne(v: World)
    requires v == With(Of(1, 1, {0}, map[0 := 5], map[0 := Blake3(map[0 := 5])], 0, Id(0)), [5], 0, Idle, map[])
    ensures DoTearSidecar(v, true) == v.(e := v.e.(sidecar := Some(BARE)))
  {
  }

  /** The byte is rewritten, and until the next save a restart trusts the old mark at
      any identity. */
  lemma TornSaveForgetsIdentity() returns (v: World)
    ensures Reaches(Cold([5]), v, 1)
    ensures TaintedAt(v, 0) && v.origin == [9]
    ensures var u := Reloaded(v, AsIs(v)); Marked(u, 0) && CacheByte(u, 0) == 5
  {
    var w := Cold([5]);
    var v0 := TornA();
    WriteOne(w, v0, 1, 0, 9, 1);
    assert Overwrite([5], 0, [9]) == [9];
    v := v0.(origin := [9], oid := Id(1), mut := Write(0, [9], Landed));
    OneByte(0, 1);
    assert 0 in LoadBits(v.e.sidecar, 1, Id(1), ONE);
  }

  /* ---- a restart whose stat lags ---- */

  lemma StrayCrash(w: World, v: World, n: nat, l: Look)
    requires Reaches(w, v, n) && Mistaken(v, l)
    ensures Reaches(w, Reloaded(v, l), n + 1)
  {
    Stray(w, v, n, Crash(l), Reloaded(v, l));
  }

  lemma OldMarkTrusted(v: World, l: Look)
    requires v.ps == ONE && v.e.sidecar == Some(Sidecar(2, 2, {1}, Id(0))) && v.e.cache == map[1 := 5]
    requires v.origin == [7, 9] && !v.mut.Rewritten? && v.oid == Id(1) && l == Look(2, Id(0), false, false, false)
    ensures Mistaken(v, l) && Reloaded(v, l).mut.Idle? && Reloaded(v, l).e.id == Id(0)
    ensures Marked(Reloaded(v, l), 1) && CacheByte(Reloaded(v, l), 1) == 5
  {
    OneByte(1, 2);
    assert 1 in LoadBits(v.e.sidecar, 2, Id(0), ONE);
    assert v.e.cache[1] == 5;
    assert MistakenAt(v, l, 1);
  }

  /** Byte 1 is rewritten with its old mark on disk, the process dies, and the stat
      of the next one still shows the object as it was before: it trusts the mark. */
  lemma LaggingRestartTrustsOldMarks() returns (v: World)
    ensures Reaches(Cold([7, 5]), v, 1)
    ensures v.mut.Idle? && v.origin == [7, 9] && v.e.id != v.oid && Marked(v, 1) && CacheByte(v, 1) == 5
  {
    var w := Cold([7, 5]);
    var v0 := SavedA();
    WriteOne(w, v0, 0, 1, 9, 1);
    assert Overwrite([7, 5], 1, [9]) == [7, 9];
    var v1 := v0.(origin := [7, 9], oid := Id(1), mut := Write(1, [9], Landed));
    var l := Look(2, Id(0), false, false, false);
    OldMarkTrusted(v1, l);
    v := Reloaded(v1, l);
    StrayCrash(w, v1, 0, l);
  }

  /* ---- a write whose result could not be observed ---- */

  /** Byte 6 is appended, both stats after it fail, and the write returns with the
      marks dropped and the recorded size as it was: until the next stat a read of the
      appended byte is answered with the end of the file. */
  lemma UnobservedAppendReadsShort() returns (v: World)
    ensures Reaches(Cold([5]), v, 0)
    ensures v.mut.Idle? && v.origin == [5, 6] && v.e.size == 1
  {
    var w := Cold([5]);
    ColdReaches([5]);
    WriteOne(w, w, 0, 1, 6, 1);
    assert Overwrite([5], 1, [6]) == [5, 6];
    var v0 := w.(origin := [5, 6], oid := Id(1), mut := Write(1, [6], Landed));
    v := DoDistrust(v0);
    Go(w, v0, 0, OwnStatFail, v);
  }

  /* ---- before an open has seen another node's rewrite ---- */

  /** Piece 0 is held, another node rewrites the object, and piece 1 is filled before
      any open: the marks are of two objects, under the identity of the first. The
      next open wipes them; no identity check comes before it. */
  lemma MarksOfTwoObjects() returns (v: World)
    ensures Reaches(Cold([5, 6]), v, 0)
    ensures v.origin == [8, 9] && v.e.id != v.oid && Marked(v, 0) && Marked(v, 1)
    ensures CacheByte(v, 0) == 5 && CacheByte(v, 1) == 9
  {
    var v0 := RewrittenA();
    FillOne(Cold([5, 6]), v0, 0, 1);
    v := v0.(e := v0.e.(bits := v0.e.bits + {1}, cache := v0.e.cache[1 := 9],
                        hashes := v0.e.hashes[1 := Blake3(map[1 := 9])]));
    OneByte(0, 2);
    OneByte(1, 2);
  }

  lemma RewrittenA() returns (v: World)
    ensures Reaches(Cold([5, 6]), v, 0)
    ensures v == With(Of(2, 2, {0}, map[0 := 5], map[0 := Blake3(map[0 := 5])], 0, Id(0)), [8, 9], 1, Rewritten, map[])
  {
    var w := Cold([5, 6]);
    ColdFill([5, 6], 0);
    var v1 := Filled([5, 6], 0);
    QuietMove(v1, [8, 9], Id(1), Rewritten);
    v := v1.(origin := [8, 9], oid := Id(1), mut := Rewritten);
    Go(w, v1, 0, ForeignRewrite([8, 9], Id(1)), v);
  }

  /** The object is replaced, and its inode number is reused under an older mtime: the
      next open takes that for attribute lag and leaves the old mark. */
  lemma ReusedInodeHidesReplacement() returns (v: World)
    ensures Reaches(Cold([5, 6]), v, 1)
    ensures v.origin == [8, 9] && v.e.id != v.oid && Marked(v, 0) && CacheByte(v, 0) == 5
    ensures forall cut, saved :: DoStat(v, 2, v.oid, cut, saved) == v
  {
    v := ReusedA();
    OneByte(0, 2);
    forall cut, saved ensures DoStat(v, 2, v.oid, cut, saved) == v {
      OlderIsLag(v.e, 2, v.oid, Busy(v), cut, saved, v.ps);
      LookIs(v, 2, v.oid, cut, saved);
    }
  }

  lemma OlderIsLag(e: Entry, size: nat, id: OriginId, busy: bool, cut: bool, saved: bool, ps: Grid)
    requires e.size == size && e.id.known && e.id.ino == id.ino && id.sec < e.id.sec
    ensures Reconcile(e, size, id, busy, cut, saved, ps) == e
  {
  }

  lemma ReusedA() returns (v: World)
    ensures Reaches(Cold([5, 6]), v, 1)
    ensures v == With(Of(2, 2, {0}, map[0 := 5], map[0 := Blake3(map[0 := 5])], 0, Id(0)), [8, 9], -1, Rewritten, map[])
  {
    var w := Cold([5, 6]);
    ColdFill([5, 6], 0);
    var v1 := Filled([5, 6], 0);
    QuietMove(v1, [8, 9], Id(-1), Rewritten);
    v := v1.(origin := [8, 9], oid := Id(-1), mut := Rewritten);
    Stray(w, v1, 0, ForeignRewrite([8, 9], Id(-1)), v);
  }

  /* ---- the sidecar saved between a write's size step and its copy ---- */

  /** Piece 1 is held, a fill of piece 0 runs, and byte 1 was rewritten. */
  lemma WindowA() returns (v: World)
    ensures Reaches(Cold([7, 8]), v, 0)
    ensures v == With(Of(2, 2, {1}, map[1 := 8], map[1 := Blake3(map[1 := 8])], 0, Id(0)).(filling := map[0 := 0]),
                      [7, 9], 1, Write(1, [9], Landed), map[]).(fills := map[0 := Fill(1, None, None)])
  {
    var w := Cold([7, 8]);
    ColdFill([7, 8], 1);
    var v1 := Filled([7, 8], 1);
    ClaimOne(w, v1, 0, 0);
    var v2 := v1.(e := v1.e.(filling := map[0 := 0]), fills := map[0 := Fill(1, None, None)]);
    WriteOne(w, v2, 0, 1, 9, 1);
    assert Overwrite([7, 8], 1, [9]) == [7, 9];
    v := v2.(origin := [7, 9], oid := Id(1), mut := Write(1, [9], Landed));
  }

  /** The size step adopts the new identity. */
  lemma WindowB() returns (v: World)
    ensures Reaches(Cold([7, 8]), v, 0)
    ensures v == With(Of(2, 2, {1}, map[1 := 8], map[1 := Blake3(map[1 := 8])], 0, Id(1)).(filling := map[0 := 0]),
                      [7, 9], 1, Write(1, [9], Sized(true, None)), map[]).(fills := map[0 := Fill(1, None, None)])
  {
    var w := Cold([7, 8]);
    var v0 := WindowA();
    GoOwnStat(w, v0, 0, false);
    v := v0.(e := v0.e.(id := Id(1)), mut := Write(1, [9], Sized(true, None)));
    assert DoOwnStat(v0, 2, Id(1), false, false, false) == v;
  }

  /** The aborted fill saves the sidecar. */
  lemma WindowSave(v: World)
    requires v == With(Of(2, 2, {1}, map[1 := 8], map[1 := Blake3(map[1 := 8])], 0, Id(1)).(filling := map[0 := 0]),
                       [7, 9], 1, Write(1, [9], Sized(true, None)), map[]).(fills := map[0 := Fill(1, None, None)])
    ensures var u := DoAbortFill(v, 0, true);
      && u.e.sidecar == Some(Sidecar(2, 2, {1}, Id(1))) && u.e.cache == map[1 := 8] && u.origin == [7, 9]
      && u.oid == Id(1) && u.ps == ONE && u.exposed == {1}
  {
    OneByte(0, 2);
    OneByte(1, 2);
    assert Dirty(v, 1) && PieceOf(1, ONE) == 1;
  }

  lemma WindowC() returns (v: World)
    ensures Reaches(Cold([7, 8]), v, 0)
    ensures v.e.sidecar == Some(Sidecar(2, 2, {1}, Id(1))) && v.e.cache == map[1 := 8] && v.origin == [7, 9]
    ensures v.oid == Id(1) && v.ps == ONE && v.exposed == {1}
  {
    var v0 := WindowB();
    v := DoAbortFill(v0, 0, true);
    WindowSave(v0);
    Go(Cold([7, 8]), v0, 0, AbortFill(0, true), v);
  }

  /** Between the size step of a write, which adopts the new identity, and its
      copy, a fill's sidecar save names the old byte under the new identity: a
      crash there reloads a mark the origin contradicts. */
  lemma WindowBreaksCrashConsistency() returns (v: World)
    ensures Reaches(Cold([7, 8]), v, 0)
    ensures TaintedAt(v, 1) && v.exposed == {1} && v.origin == [7, 9]
    ensures var u := Reloaded(v, AsIs(v)); Marked(u, 1) && CacheByte(u, 1) == 8
  {
    v := WindowC();
    OneByte(1, 2);
    assert Count(2, ONE) == 2;
    assert 1 in LoadBits(v.e.sidecar, 2, Id(1), ONE);
  }

  /* ---- under a transfer ---- */

  /** An extending truncate under a transfer replaces the bitfield's storage. */
  lemma TruncateMovesTheField() returns (v: World)
    ensures Reaches(Cold([5]), v, 0) && 0 in v.readers
    ensures Enabled(v, TruncApply(true, false, false)) && ReallocatesField(v, TruncApply(true, false, false))
    ensures DoTruncApply(v, true, false, false).e.storage != v.e.storage
  {
    var w := Cold([5]);
    ColdReaches([5]);
    GoXfer(w, w, 0, 0);
    var v1 := w.(readers := map[0 := Reader({}, {})]);
    TruncOne(w, v1, 0, 9, 1);
    v := v1.(origin := Resized([5], 9), oid := Id(1), mut := Trunc(9, true));
    OneByte(0, 9);
    TruncUnderTransfer(v, true, false, false);
  }

  /** Piece 0 was sampled by transfer 0, and a rewrite of it has landed. */
  lemma RefillA() returns (v: World)
    ensures Reaches(Cold([5]), v, 0)
    ensures v == With(Of(1, 1, {0}, map[0 := 5], map[0 := Blake3(map[0 := 5])], 0, Id(0)), [9], 1,
                      Write(0, [9], Landed), map[0 := Reader({0}, {})])
  {
    var w := Cold([5]);
    ColdFill([5], 0);
    var v1 := Filled([5], 0);
    GoXfer(w, v1, 0, 0);
    var v2 := v1.(readers := map[0 := Reader({}, {})]);
    ObserveOne(v2);
    var v3 := v1.(readers := map[0 := Reader({0}, {0})]);
    Go(w, v2, 0, Observe(0, 0), v3);
    RefillMove(w, v3);
    v := v1.(readers := map[0 := Reader({0}, {})], origin := [9], oid := Id(1), mut := Write(0, [9], Landed));
  }

  lemma ObserveOne(v: World)
    requires v.ps == ONE && v.e.size == 1 && v.mut.Idle? && v.readers == map[0 := Reader({}, {})]
    ensures DoObserve(v, 0, 0) == v.(readers := map[0 := Reader({0}, {0})])
  {
    OneByte(0, 1);
    var now := PieceBytes(0, v.e.size, v.ps);
    assert now == {0};
    assert (set i | i in now && !Dirty(v, i)) == {0};
    assert DoObserve(v, 0, 0).readers[0] == Reader({0}, {0});
    assert DoObserve(v, 0, 0).readers == map[0 := Reader({0}, {0})];
  }

  lemma RefillMove(w: World, v: World)
    requires Reaches(w, v, 0) && Quiet(v) && v.mut.Idle? && v.origin == [5] && v.oid == Id(0)
    requires v.readers == map[0 := Reader({0}, {0})]
    ensures Reaches(w, v.(readers := map[0 := Reader({0}, {})], origin := [9], oid := Id(1),
            mut := Write(0, [9], Landed)), 0)
  {
    GoIssue(w, v, 0, 0, [9]);
    var v1 := v.(mut := Write(0, [9], Issued));
    GoLand(w, v1, 0, Id(1));
    assert Overwrite([5], 0, [9]) == [9];
    var v2 := DoWriteLand(v1, Id(1));
    assert v2.readers[0].clean == {};
    assert v2.readers == map[0 := Reader({0}, {})];
  }

  lemma RefillSized() returns (v: World)
    ensures Reaches(Cold([5]), v, 0)
    ensures v == With(Of(1, 1, {0}, map[0 := 5], map[0 := Blake3(map[0 := 5])], 0, Id(1)), [9], 1,
                      Write(0, [9], Sized(true, None)), map[0 := Reader({0}, {})])
  {
    var w := Cold([5]);
    var v0 := RefillA();
    GoOwnStat(w, v0, 0, true);
    v := v0.(e := v0.e.(id := Id(1)), mut := Write(0, [9], Sized(true, None)));
    assert DoOwnStat(v0, 1, Id(1), true, false, false) == v;
  }

  lemma RefillRefused() returns (v: World)
    ensures Reaches(Cold([5]), v, 0)
    ensures v == With(Of(1, 1, {0}, map[0 := 5], map[0 := Blake3(map[0 := 5])], 0, Id(1)), [9], 1,
                      Write(0, [9], Sized(true, None)), map[0 := Reader({0}, {})]).(lock := Copying(false))
  {
    var v0 := RefillSized();
    GoCopyPwrite(Cold([5]), v0, 0, {});
    v := v0.(lock := Copying(false));
  }

  /** The copy is refused under the transfer and drops the mark. */
  lemma RefillB() returns (v: World)
    ensures Reaches(Cold([5]), v, 0)
    ensures v == With(Of(1, 1, {}, map[0 := 5], map[], 1, Id(1)), [9], 1, Idle, map[0 := Reader({0}, {})])
  {
    var w := Cold([5]);
    var v2 := RefillRefused();
    assert map[0 := 5][0] == 5 && map[0 := 9][0] == 9;
    UnmarkOne(v2.e, 0, 9);
    v := DoCopyEnd(v2, false);
    GoCopyEnd(w, v2, 0);
  }

  /** ... so a second reader refills the piece under the first one's transfer:
      the sampled byte was 5, the pread of transfer 0 gives 9. */
  lemma RefillMovesSampledBytes() returns (v: World)
    ensures Reaches(Cold([5]), v, 0)
    ensures 0 in v.readers && 0 in v.readers[0].seen && CacheByte(v, 0) == 9
  {
    var w := Cold([5]);
    var v0 := RefillB();
    Fetch(w, v0, 0, 0);
    var v1 := v0.(e := v0.e.(filling := map[0 := 1]), fills := map[0 := Fill(1, None, Some(map[0 := 9]))]);
    Land(w, v1, 0, 0, 9, None);
    v := v1.(e := v1.e.(cache := v1.e.cache[0 := 9]), lock := Landing(0, map[0 := 9], true, {0}));
  }
}
