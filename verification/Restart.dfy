/** A crash seen through the persisted bytes: what the next process decodes from
    the sidecar that the protocol had saved when it died. */
module Restart {
  import opened Pieces
  import opened Bitfields
  import opened Entries
  import opened Protocol
  import opened ProtocolInv
  import opened ProtocolSteps
  import opened ProtocolTheorems
  import opened SidecarCodec

  /** `field` is the packed form of the saved marks, and everything fits its width. */
  ghost predicate Packs(field: seq<Byte>, sc: Sidecar, ps: Grid) {
    && PadClear(field, sc.nbits) && SetOf(field, sc.nbits) == sc.bits && Stampable(sc.id)
    && ps < 0x1_0000_0000 && sc.size < 0x1_0000_0000_0000_0000
  }

  /** The marks the next process takes from the blob on disk against look l. */
  function Decoded(w: World, field: seq<Byte>, l: Look): set<nat>
    requires w.e.sidecar.Some? && Stampable(w.e.sidecar.value.id)
  {
    var sc := w.e.sidecar.value;
    Load(Blob(field, w.ps, sc.size, sc.id), w.ps, l.size, l.id).bits
  }

  /** They name bytes that are there and are the origin's. */
  ghost predicate DecodesHonestly(w: World, field: seq<Byte>, l: Look)
    requires w.e.sidecar.Some? && Stampable(w.e.sidecar.value.id)
  {
    forall i: nat {:trigger PieceOf(i, w.ps)} :: i < l.size && PieceOf(i, w.ps) in Decoded(w, field, l) ==>
      i in w.e.cache && i < |w.origin| && w.e.cache[i] == w.origin[i]
  }

  predicate Coincides(w: World, l: Look)
    requires w.e.sidecar.Some?
  {
    var sc := w.e.sidecar.value;
    Misread(sc.nbits, sc.id, sc.size, l.size, w.ps)
  }

  lemma DecodedBits(w: World, field: seq<Byte>, l: Look)
    requires w.e.sidecar.Some? && Packs(field, w.e.sidecar.value, w.ps) && !Coincides(w, l)
    ensures Decoded(w, field, l) == LoadBits(w.e.sidecar, l.size, l.id, w.ps)
  {
    var sc := w.e.sidecar.value;
    SidecarReloads(field, sc.nbits, w.ps, sc.size, sc.id, l.size, l.id);
  }

  /** After a crash anywhere in a run, and against any look that fits and does not take
      outdated marks for current, the marks decoded from the bytes on disk are honest
      exactly when they name no byte that the last save exposed and that still differs,
      unless the blob's length is the one that misreads. */
  lemma RestartDecodesHonestMarks(w: World, acts: seq<Action>, field: seq<Byte>, l: Look)
    requires Init(w) && Runs(w, acts) && OrderlyRun(w, acts)
    requires LookFits(After(w, acts), l) && !TrustsOld(After(w, acts), l)
    requires var v := After(w, acts); v.e.sidecar.Some? && Packs(field, v.e.sidecar.value, v.ps) && !Coincides(v, l)
    ensures var v := After(w, acts);
      DecodesHonestly(v, field, l) <==>
      !exists i {:trigger TaintedAt(v, i)} ::
        i in v.exposed && TaintedAt(v, i) && PieceOf(i, v.ps) in Decoded(v, field, l)
  {
    InitInv(w);
    RunKeepsInv(w, acts);
    DecodesExactly(After(w, acts), field, l);
  }

  lemma DecodesExactly(v: World, field: seq<Byte>, l: Look)
    requires Inv(v) && LookFits(v, l) && !TrustsOld(v, l)
    requires v.e.sidecar.Some? && Packs(field, v.e.sidecar.value, v.ps) && !Coincides(v, l)
    ensures DecodesHonestly(v, field, l) <==>
      !exists i {:trigger TaintedAt(v, i)} ::
        i in v.exposed && TaintedAt(v, i) && PieceOf(i, v.ps) in Decoded(v, field, l)
  {
    DecodedBits(v, field, l);
    HonestExactly(v, l, Decoded(v, field, l));
  }

  lemma HonestExactly(v: World, l: Look, marks: set<nat>)
    requires Inv(v) && LookFits(v, l) && !TrustsOld(v, l) && marks == LoadBits(v.e.sidecar, l.size, l.id, v.ps)
    ensures (forall i: nat {:trigger PieceOf(i, v.ps)} :: i < l.size && PieceOf(i, v.ps) in marks ==>
              i in v.e.cache && i < |v.origin| && v.e.cache[i] == v.origin[i])
      <==> !exists i {:trigger TaintedAt(v, i)} ::
        i in v.exposed && TaintedAt(v, i) && PieceOf(i, v.ps) in marks
  {
    forall i: nat | PieceOf(i, v.ps) in marks
      ensures i < l.size && !(i in v.e.cache && i < |v.origin| && v.e.cache[i] == v.origin[i]) <==> TaintedAt(v, i)
      ensures TaintedAt(v, i) ==> i in v.exposed
    {
      TrustedIsCurrent(v, l);
      if TaintedAt(v, i) {
        TaintIsExposed(v, i);
      }
    }
  }

  /** ... and with that length the marks are the field's and the identity's bytes,
      all of them, whatever the look shows of the identity: honest exactly when each
      byte they name is. The other misread takes a field without an identity, and the
      only one that is ever saved names no piece. */
  lemma RestartMisreads(w: World, acts: seq<Action>, field: seq<Byte>, l: Look)
    requires Init(w) && Runs(w, acts) && OrderlyRun(w, acts)
    requires var v := After(w, acts); v.e.sidecar.Some? && Packs(field, v.e.sidecar.value, v.ps) && Coincides(v, l)
    ensures var v := After(w, acts); var sc := v.e.sidecar.value;
      if sc.id.known then
        && LoadBits(Some(sc), l.size, l.id, v.ps) == {}
        && Decoded(v, field, l) == SetOf(field + IdBytes(sc.id), Count(l.size, v.ps))
        && (Decoded(v, field, l) == {} <==>
              sc.bits == {} &&
              forall k: nat {:trigger BitIsSet(IdBytes(sc.id), k)} ::
                k < 8 * TRAILER && 8 * |field| + k < Count(l.size, v.ps) ==> !BitIsSet(IdBytes(sc.id), k))
      else sc.bits == {} && Decoded(v, field, l) == {}
  {
    InitInv(w);
    RunKeepsInv(w, acts);
    var v := After(w, acts);
    KnownSidecar(v);
    var sc := v.e.sidecar.value;
    if sc.id.known {
      TrailerReadAsMarks(field, sc.nbits, v.ps, sc.size, sc.id, l.id);
    } else {
      MarksReadAsTrailer(field, sc.nbits, v.ps, sc.size, sc.id, l.id);
    }
  }

  lemma KnownSidecar(v: World)
    requires Shape(v) && v.e.sidecar.Some?
    ensures v.e.sidecar.value.id.known || v.e.sidecar.value.bits == {}
  {
    assert Ids(OriginOf(v), v.e.sidecar);
  }

  /** A save that works, read back at the size and identity it was made under (or
      any that is no newer), gives exactly the marks it was made of, unless a deferred
      grow left the field short of the bytes its size calls for: that one is thrown
      away, but for the length that misreads. */
  lemma SavedMarksReload(e: Entry, field: seq<Byte>, ps: Grid, at: OriginId)
    requires (forall p :: p in e.bits ==> p < Count(e.size, ps)) && !ContentChanged(e.id, at)
    requires var sc := Save(e, true).sidecar; sc.Some? && Packs(field, sc.value, ps)
    requires !Misread(e.nbits, e.id, e.size, e.size, ps)
    ensures var sc := Save(e, true).sidecar.value;
      Load(Blob(field, ps, sc.size, sc.id), ps, e.size, at) ==
      if BytesLen(e.nbits) == BytesLen(Count(e.size, ps)) then Loaded(e.bits, false) else Loaded({}, true)
  {
    SidecarReloads(field, e.nbits, ps, e.size, e.id, e.size, at);
  }
}
