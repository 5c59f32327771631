/** The published piece manifest byte by byte (src/piece.zig): the decoder is the
    gate between shared storage and the digests peer fills are trusted by. */
module ManifestCodec {
  import opened Pieces
  import opened Wire

  type Bytes = seq<Byte>

  /** Piece index and 32-byte digest. */
  type Row = (nat, Bytes)

  datatype Table = Table(ps: nat, size: nat, rows: seq<Row>, id: Option<Bytes>)

  datatype Decoded = NotAManifest | BadManifest | Ok(table: Table)

  /** "MFSM". */
  const MAGIC: Bytes := [0x4D, 0x46, 0x53, 0x4D]
  const HEAD: nat := 20
  const ROW: nat := 36
  const TRAILER: nat := 24

  function BodyLen(n: nat): nat { HEAD + n * ROW }

  function RowBytes(r: Row): Bytes { Le(r.0, 4) + r.1 }

  function RowsBytes(rows: seq<Row>): Bytes {
    if rows == [] then [] else RowsBytes(rows[..|rows| - 1]) + RowBytes(rows[|rows| - 1])
  }

  function Head(t: Table): Bytes { MAGIC + Le(t.ps, 4) + Le(t.size, 8) + Le(|t.rows|, 4) }

  /** `manifestEncode`, and the identity trailer of the publisher. */
  function Encode(t: Table): Bytes {
    Head(t) + (RowsBytes(t.rows) + if t.id.Some? then t.id.value else [])
  }

  predicate Ascending(rows: seq<Row>) { forall i :: 0 < i < |rows| ==> rows[i - 1].0 < rows[i].0 }

  /** A table the codec stands for: indices of the file's own grid, in order. */
  predicate Valid(t: Table) {
    && 0 < t.ps < 0x1_0000_0000 && t.size < 0x1_0000_0000_0000_0000 && |t.rows| < 0x1_0000_0000
    && (forall i :: 0 <= i < |t.rows| ==> |t.rows[i].1| == 32 && t.rows[i].0 < Count(t.size, t.ps))
    && Ascending(t.rows)
    && (t.id.Some? ==> |t.id.value| == TRAILER)
  }

  /** The row at offset 36k of a row area. */
  function RowAt(area: Bytes, k: nat): Row
    requires (k + 1) * ROW <= |area|
  {
    var at := k * ROW;
    (UnLe(area[at..at + 4]), area[at + 4..at + ROW])
  }

  function RowsAt(area: Bytes, n: nat): (rows: seq<Row>)
    requires n * ROW <= |area|
    ensures |rows| == n
  {
    if n == 0 then [] else RowsAt(area, n - 1) + [RowAt(area, n - 1)]
  }

  /** `manifestDecode`. */
  function Decode(blob: Bytes): Decoded {
    if |blob| < 4 || blob[..4] != MAGIC then NotAManifest
    else if |blob| < HEAD then BadManifest
    else
      var ps, size, n := UnLe(blob[4..8]), UnLe(blob[8..16]), UnLe(blob[16..20]);
      if ps == 0 || (|blob| != BodyLen(n) && |blob| != BodyLen(n) + TRAILER) then BadManifest
      else DecodeArea(ps, size, n, blob[HEAD..])
  }

  /** What follows the head: the rows, and the trailer if there is one. */
  function DecodeArea(ps: Grid, size: nat, n: nat, area: Bytes): Decoded
    requires n * ROW <= |area|
  {
    var rows := RowsAt(area, n);
    if !Ascending(rows) || exists i :: 0 <= i < n && rows[i].0 >= Count(size, ps) then BadManifest
    else Ok(Table(ps, size, rows, if |area| == n * ROW then None else Some(area[n * ROW..])))
  }

  /** The decoder's loop over the rows; it stops at the first bad index. */
  method DecodeRows(area: Bytes, n: nat, limit: nat) returns (rows: Option<seq<Row>>)
    requires n * ROW <= |area|
    ensures rows == var rs := RowsAt(area, n);
      if Ascending(rs) && forall i :: 0 <= i < n ==> rs[i].0 < limit then Some(rs) else None
  {
    var out: seq<Row>, prev: Option<nat> := [], None;
    for k := 0 to n
      invariant k * ROW <= |area| && out == RowsAt(area, k)
      invariant Ascending(out) && forall i :: 0 <= i < k ==> out[i].0 < limit
      invariant prev == if k == 0 then None else Some(out[k - 1].0)
    {
      assert (k + 1) * ROW <= n * ROW;
      var row := RowAt(area, k);
      RowsPrefix(area, n, k + 1);
      var next := out + [row];
      assert next == RowsAt(area, k + 1) && next[k] == row;
      if prev.Some? && row.0 <= prev.value {
        assert next[k - 1].0 >= next[k].0;
        BadRow(area, n, k, limit);
        return None;
      }
      if row.0 >= limit {
        BadRow(area, n, k, limit);
        return None;
      }
      out, prev := next, Some(row.0);
    }
    return Some(out);
  }

  lemma {:induction false} RowsPrefix(area: Bytes, n: nat, k: nat)
    requires k <= n && n * ROW <= |area|
    ensures k * ROW <= |area| && RowsAt(area, n)[..k] == RowsAt(area, k)
  {
    assert k * ROW <= n * ROW;
    if k < n {
      RowsPrefix(area, n - 1, k);
      assert RowsAt(area, n)[..k] == RowsAt(area, n - 1)[..k];
    }
  }

  lemma BadRow(area: Bytes, n: nat, k: nat, limit: nat)
    requires k < n && n * ROW <= |area| && (k + 1) * ROW <= |area|
    requires var rs := RowsAt(area, k + 1); rs[k].0 >= limit || (k > 0 && rs[k].0 <= rs[k - 1].0)
    ensures var rs := RowsAt(area, n); rs[k].0 >= limit || !Ascending(rs)
  {
    RowsPrefix(area, n, k + 1);
    var rs, some := RowsAt(area, n), RowsAt(area, k + 1);
    assert rs[k] == some[k] && (k > 0 ==> rs[k - 1] == some[k - 1]);
  }

  /* ---- the two directions ---- */

  predicate RowOk(r: Row) { |r.1| == 32 && r.0 < 0x1_0000_0000 }

  lemma {:induction false} RowsLen(rows: seq<Row>)
    requires forall r :: r in rows ==> RowOk(r)
    ensures |RowsBytes(rows)| == |rows| * ROW
  {
    if rows != [] {
      RowsLen(rows[..|rows| - 1]);
      assert rows[|rows| - 1] in rows;
    }
  }

  lemma {:induction false} RowsRead(rows: seq<Row>, rest: Bytes)
    requires forall r :: r in rows ==> RowOk(r)
    ensures |RowsBytes(rows)| == |rows| * ROW && RowsAt(RowsBytes(rows) + rest, |rows|) == rows
  {
    RowsLen(rows);
    if rows != [] {
      var n := |rows| - 1;
      var init, r := rows[..n], rows[n];
      assert r in rows;
      RowsLen(init);
      RowsRead(init, RowBytes(r) + rest);
      OneRow(RowsBytes(init), r, rest, n);
      assert RowsBytes(rows) + rest == RowsBytes(init) + (RowBytes(r) + rest);
      assert rows == init + [r];
    }
  }

  lemma OneRow(before: Bytes, r: Row, rest: Bytes, k: nat)
    requires |before| == k * ROW && |r.1| == 32 && r.0 < 0x1_0000_0000
    ensures RowAt(before + (RowBytes(r) + rest), k) == r
  {
    var area, at := before + (RowBytes(r) + rest), k * ROW;
    Widths();
    ReadsBack(r.0, 4);
    assert area[at..at + 4] == Le(r.0, 4) && area[at + 4..at + ROW] == r.1;
  }

  lemma {:induction false} RowsWrite(area: Bytes, n: nat)
    requires n * ROW <= |area|
    ensures RowsBytes(RowsAt(area, n)) == area[..n * ROW]
    ensures forall i :: 0 <= i < n ==> |RowsAt(area, n)[i].1| == 32
  {
    if n > 0 {
      RowsWrite(area, n - 1);
      RowWrites(area, n - 1);
      RowsEnd(RowsAt(area, n - 1), RowAt(area, n - 1));
    }
  }

  lemma RowWrites(area: Bytes, k: nat)
    requires (k + 1) * ROW <= |area|
    ensures area[..k * ROW] + RowBytes(RowAt(area, k)) == area[..(k + 1) * ROW] && |RowAt(area, k).1| == 32
  {
    var at := k * ROW;
    WritesBack(area[at..at + 4]);
    assert area[at..at + 4] + area[at + 4..at + ROW] == area[at..at + ROW];
  }

  lemma RowsEnd(rows: seq<Row>, r: Row)
    ensures RowsBytes(rows + [r]) == RowsBytes(rows) + RowBytes(r)
  {
    assert (rows + [r])[..|rows|] == rows;
  }

  lemma HeadReads(t: Table, rest: Bytes)
    requires t.ps < 0x1_0000_0000 && t.size < 0x1_0000_0000_0000_0000 && |t.rows| < 0x1_0000_0000
    ensures var b := Head(t) + rest;
      && |Head(t)| == HEAD && b[..4] == MAGIC && b[HEAD..] == rest
      && UnLe(b[4..8]) == t.ps && UnLe(b[8..16]) == t.size && UnLe(b[16..20]) == |t.rows|
  {
    Widths();
    ReadsBack(t.ps, 4);
    ReadsBack(t.size, 8);
    ReadsBack(|t.rows|, 4);
    HeadSlices(MAGIC, Le(t.ps, 4), Le(t.size, 8), Le(|t.rows|, 4), rest);
  }

  lemma HeadSlices(a: Bytes, b: Bytes, c: Bytes, d: Bytes, e: Bytes)
    requires |a| == 4 && |b| == 4 && |c| == 8 && |d| == 4
    ensures var s := a + b + c + d + e;
      |a + b + c + d| == HEAD && s[..4] == a && s[4..8] == b && s[8..16] == c && s[16..20] == d && s[HEAD..] == e
  {
  }

  lemma DecodesItsOwn(t: Table)
    requires Valid(t)
    ensures Decode(Encode(t)) == Ok(t)
  {
    var tail := if t.id.Some? then t.id.value else [];
    HeadReads(t, RowsBytes(t.rows) + tail);
    AreaDecodes(t, tail);
  }

  lemma AreaDecodes(t: Table, tail: Bytes)
    requires Valid(t) && tail == if t.id.Some? then t.id.value else []
    ensures |RowsBytes(t.rows)| == |t.rows| * ROW
    ensures DecodeArea(t.ps, t.size, |t.rows|, RowsBytes(t.rows) + tail) == Ok(t)
  {
    forall r | r in t.rows ensures RowOk(r) {
      var i :| 0 <= i < |t.rows| && t.rows[i] == r;
    }
    RowsRead(t.rows, tail);
    assert (RowsBytes(t.rows) + tail)[|t.rows| * ROW..] == tail;
  }

  lemma HeadWrites(b: Bytes, t: Table)
    requires |b| >= HEAD && b[..4] == MAGIC
    requires t.ps == UnLe(b[4..8]) && t.size == UnLe(b[8..16]) && |t.rows| == UnLe(b[16..20])
    ensures Head(t) == b[..HEAD] && t.ps < 0x1_0000_0000 && t.size < 0x1_0000_0000_0000_0000 && |t.rows| < 0x1_0000_0000
  {
    Widths();
    WritesBack(b[4..8]);
    WritesBack(b[8..16]);
    WritesBack(b[16..20]);
    assert b[..HEAD] == b[..4] + b[4..8] + b[8..16] + b[16..20];
  }

  lemma OnlyEncodings(blob: Bytes)
    requires Decode(blob).Ok?
    ensures Valid(Decode(blob).table) && Encode(Decode(blob).table) == blob
  {
    var t := Decode(blob).table;
    HeadWrites(blob, t);
    OnlyAreas(blob[HEAD..], t);
    assert blob == blob[..HEAD] + blob[HEAD..];
  }

  lemma OnlyAreas(area: Bytes, t: Table)
    requires t.ps > 0 && |t.rows| * ROW <= |area| && DecodeArea(t.ps, t.size, |t.rows|, area) == Ok(t)
    ensures area == RowsBytes(t.rows) + if t.id.Some? then t.id.value else []
    ensures forall i :: 0 <= i < |t.rows| ==> |t.rows[i].1| == 32
  {
    RowsWrite(area, |t.rows|);
    assert area == area[..|t.rows| * ROW] + area[|t.rows| * ROW..];
  }

  /** Where the parts of a published manifest lie. */
  lemma EncodeLayout(t: Table, k: nat)
    requires Valid(t) && k < |t.rows|
    ensures var b, at := Encode(t), 20 + 36 * k;
      && |b| == 20 + 36 * |t.rows| + (if t.id.Some? then 24 else 0)
      && b[..4] == [0x4D, 0x46, 0x53, 0x4D]
      && UnLe(b[4..8]) == t.ps && UnLe(b[8..16]) == t.size && UnLe(b[16..20]) == |t.rows|
      && UnLe(b[at..at + 4]) == t.rows[k].0 && b[at + 4..at + 36] == t.rows[k].1
      && (t.id.Some? ==> b[20 + 36 * |t.rows|..] == t.id.value)
  {
    var tail := if t.id.Some? then t.id.value else [];
    var area := RowsBytes(t.rows) + tail;
    HeadReads(t, area);
    AreaDecodes(t, tail);
    AreaLayout(t, area, k);
    AreaSlices(Head(t), area, 36 * k);
    TailSlice(Head(t), RowsBytes(t.rows), tail);
  }

  lemma AreaLayout(t: Table, area: Bytes, k: nat)
    requires |t.rows| * ROW <= |area| && RowsAt(area, |t.rows|) == t.rows && k < |t.rows|
    ensures var at := 36 * k;
      at + 36 <= |area| && UnLe(area[at..at + 4]) == t.rows[k].0 && area[at + 4..at + 36] == t.rows[k].1
  {
    RowsAtEach(area, |t.rows|, k);
  }

  lemma TailSlice(a: Bytes, b: Bytes, c: Bytes)
    ensures (a + (b + c))[|a| + |b|..] == c
  {
  }

  lemma {:induction false} RowsAtEach(area: Bytes, n: nat, k: nat)
    requires k < n && n * ROW <= |area|
    ensures (k + 1) * ROW <= |area| && RowsAt(area, n)[k] == RowAt(area, k)
  {
    assert (k + 1) * ROW <= n * ROW;
    if k < n - 1 {
      RowsAtEach(area, n - 1, k);
    }
  }

  lemma AreaSlices(head: Bytes, area: Bytes, at: nat)
    requires |head| == 20 && at + 36 <= |area|
    ensures (head + area)[20 + at..20 + at + 4] == area[at..at + 4]
    ensures (head + area)[20 + at + 4..20 + at + 36] == area[at + 4..at + 36]
  {
  }

  /** A blob decodes to a table exactly when the table is valid and the blob is its
      encoding: nothing torn, reordered, repeated or out of the grid gets in. */
  lemma DecodeExact(blob: Bytes, t: Table)
    ensures Decode(blob) == Ok(t) <==> Valid(t) && blob == Encode(t)
    ensures Decode(blob).NotAManifest? <==> !([0x4D, 0x46, 0x53, 0x4D] <= blob)
  {
    if Valid(t) {
      DecodesItsOwn(t);
    }
    if Decode(blob).Ok? {
      OnlyEncodings(blob);
    }
  }
}
