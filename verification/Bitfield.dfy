/** The packed piece field of src/piece.zig: bit i lives in byte i / 8, least
    significant first. Marks are what the rest of the store sees of it. */
module Bitfields {
  import opened Pieces
  import opened Wire

  /* ---- the bits of one byte ---- */

  predicate Bit(b: nat, j: nat) { if j == 0 then b % 2 == 1 else Bit(b / 2, j - 1) }

  /** `b | 1 << j`. */
  function WithBit(b: nat, j: nat): nat {
    if j == 0 then b - b % 2 + 1 else b % 2 + 2 * WithBit(b / 2, j - 1)
  }

  /** `b & ~(1 << j)`. */
  function WithoutBit(b: nat, j: nat): nat {
    if j == 0 then b - b % 2 else b % 2 + 2 * WithoutBit(b / 2, j - 1)
  }

  /** `b & (1 << r) - 1`. */
  function LowBits(b: nat, r: nat): nat { if r == 0 then 0 else b % 2 + 2 * LowBits(b / 2, r - 1) }

  function Pow2(n: nat): nat { if n == 0 then 1 else 2 * Pow2(n - 1) }

  lemma {:induction false} WithBitExact(b: nat, j: nat, k: nat)
    ensures Bit(WithBit(b, j), k) <==> k == j || Bit(b, k)
  {
    if j > 0 && k > 0 {
      WithBitExact(b / 2, j - 1, k - 1);
    }
  }

  lemma {:induction false} WithoutBitExact(b: nat, j: nat, k: nat)
    ensures Bit(WithoutBit(b, j), k) <==> k != j && Bit(b, k)
  {
    if j > 0 && k > 0 {
      WithoutBitExact(b / 2, j - 1, k - 1);
    }
  }

  lemma {:induction false} LowBitsExact(b: nat, r: nat, k: nat)
    ensures Bit(LowBits(b, r), k) <==> k < r && Bit(b, k)
  {
    if r > 0 && k > 0 {
      LowBitsExact(b / 2, r - 1, k - 1);
    } else if r == 0 {
      ZeroHasNoBit(k);
    }
  }

  /** Bit j counts 2^j. */
  lemma {:induction false} BitIs(b: nat, j: nat)
    ensures Pow2(j) > 0 && (Bit(b, j) <==> b / Pow2(j) % 2 == 1)
  {
    if j > 0 {
      BitIs(b / 2, j - 1);
      DivTwice(b, 2, Pow2(j - 1));
    }
  }

  lemma {:induction false} ZeroHasNoBit(k: nat)
    ensures !Bit(0, k)
  {
    if k > 0 {
      ZeroHasNoBit(k - 1);
    }
  }

  lemma {:induction false} WithBitInWidth(b: nat, j: nat, n: nat)
    requires b < Pow2(n) && j < n
    ensures WithBit(b, j) < Pow2(n)
  {
    var half := Pow2(n - 1);
    assert b < 2 * half;
    if j > 0 {
      WithBitInWidth(b / 2, j - 1, n - 1);
    }
  }

  lemma {:induction false} Shrinks(b: nat, j: nat)
    ensures WithoutBit(b, j) <= b && LowBits(b, j) <= b
  {
    if j > 0 {
      Shrinks(b / 2, j - 1);
    }
  }

  ghost predicate AllBits(b: nat, n: nat) { forall j: nat :: j < n ==> Bit(b, j) }

  lemma {:induction false} FullHasBits(b: nat, n: nat, j: nat)
    requires b + 1 == Pow2(n) && j < n
    ensures Bit(b, j)
  {
    var half := Pow2(n - 1);
    assert b == 2 * (half - 1) + 1;
    if j > 0 {
      FullHasBits(b / 2, n - 1, j - 1);
    }
  }

  lemma {:induction false} AllBitsFill(b: nat, n: nat)
    requires b < Pow2(n) && AllBits(b, n)
    ensures b + 1 == Pow2(n)
  {
    if n > 0 {
      assert Bit(b, 0);
      forall j: nat | j < n - 1 ensures Bit(b / 2, j) { assert Bit(b, j + 1); }
      AllBitsFill(b / 2, n - 1);
    }
  }

  lemma FullByte(b: Byte)
    ensures b == 255 <==> AllBits(b, 8)
  {
    Bytes256();
    if b == 255 {
      forall j: nat | j < 8 ensures Bit(b, j) { FullHasBits(b, 8, j); }
    } else if AllBits(b, 8) {
      AllBitsFill(b, 8);
    }
  }

  lemma Bytes256()
    ensures Pow2(8) == 256
  {
    assert Pow2(4) == 16;
  }

  function SetIn(b: Byte, j: nat): (c: Byte)
    requires j < 8
    ensures forall k: nat :: Bit(c, k) <==> k == j || Bit(b, k)
  {
    Bytes256();
    WithBitInWidth(b, j, 8);
    assert forall k: nat :: Bit(WithBit(b, j), k) <==> k == j || Bit(b, k) by {
      forall k: nat ensures Bit(WithBit(b, j), k) <==> k == j || Bit(b, k) { WithBitExact(b, j, k); }
    }
    WithBit(b, j)
  }

  function ClearIn(b: Byte, j: nat): (c: Byte)
    ensures forall k: nat :: Bit(c, k) <==> k != j && Bit(b, k)
  {
    Shrinks(b, j);
    assert forall k: nat :: Bit(WithoutBit(b, j), k) <==> k != j && Bit(b, k) by {
      forall k: nat ensures Bit(WithoutBit(b, j), k) <==> k != j && Bit(b, k) { WithoutBitExact(b, j, k); }
    }
    WithoutBit(b, j)
  }

  function LowIn(b: Byte, r: nat): (c: Byte)
    ensures forall k: nat :: Bit(c, k) <==> k < r && Bit(b, k)
  {
    Shrinks(b, r);
    assert forall k: nat :: Bit(LowBits(b, r), k) <==> k < r && Bit(b, k) by {
      forall k: nat ensures Bit(LowBits(b, r), k) <==> k < r && Bit(b, k) { LowBitsExact(b, r, k); }
    }
    LowBits(b, r)
  }

  /* ---- the bits of a field ---- */

  /** `bitIsSet`, shared with the `/have` wire bitmap. */
  predicate BitIsSet(bytes: seq<Byte>, i: nat) { i / 8 < |bytes| && Bit(bytes[i / 8], i % 8) }

  function SetOf(bytes: seq<Byte>, n: nat): (s: set<nat>)
    ensures forall i: nat :: i in s <==> i < n && BitIsSet(bytes, i)
  {
    set i: nat | i < n && BitIsSet(bytes, i)
  }

  ghost predicate PadClear(bytes: seq<Byte>, n: nat) {
    |bytes| == BytesLen(n) && forall i: nat {:trigger BitIsSet(bytes, i)} :: n <= i ==> !BitIsSet(bytes, i)
  }

  /** `clearPadBits`. */
  function ClearPad(bytes: seq<Byte>, n: nat): (s: seq<Byte>)
    requires |bytes| == BytesLen(n)
    ensures PadClear(s, n)
    ensures forall i: nat {:trigger BitIsSet(s, i)} :: i < n ==> (BitIsSet(s, i) <==> BitIsSet(bytes, i))
  {
    if n % 8 == 0 then bytes
    else
      var last := BytesLen(n) - 1;
      bytes[last := LowIn(bytes[last], n % 8)]
  }

  ghost predicate AllIn(bytes: seq<Byte>, lo: nat, hi: nat) {
    forall j: nat :: lo <= j < hi ==> BitIsSet(bytes, j)
  }

  lemma NotAll(bytes: seq<Byte>, lo: nat, from: nat, to: nat, hi: nat)
    requires lo <= from <= to <= hi && !AllIn(bytes, from, to)
    ensures !AllIn(bytes, lo, hi)
  {
  }

  lemma MarkedRun(bytes: seq<Byte>, n: nat, lo: nat, hi: nat)
    requires hi <= n
    ensures (forall i: nat :: lo <= i < hi ==> i in SetOf(bytes, n)) <==> AllIn(bytes, lo, hi)
  {
    if forall i: nat :: lo <= i < hi ==> i in SetOf(bytes, n) {
      forall j: nat | lo <= j < hi ensures BitIsSet(bytes, j) { assert j in SetOf(bytes, n); }
    }
  }

  /** Eight bits in a row. */
  lemma ByteRun(bytes: seq<Byte>, i: nat)
    requires i % 8 == 0 && i / 8 < |bytes|
    ensures bytes[i / 8] == 255 <==> AllIn(bytes, i, i + 8)
  {
    FullByte(bytes[i / 8]);
    if bytes[i / 8] == 255 {
      forall j: nat | i <= j < i + 8 ensures BitIsSet(bytes, j) { assert Bit(bytes[i / 8], j % 8); }
    }
    if AllIn(bytes, i, i + 8) {
      forall j: nat | j < 8 ensures Bit(bytes[i / 8], j) { assert BitIsSet(bytes, i + j); }
    }
  }

  /** Sixty-four bits in a row are one all-ones little-endian word. */
  lemma WordRun(bytes: seq<Byte>, i: nat)
    requires i % 8 == 0 && i / 8 + 8 <= |bytes|
    ensures UnLe(bytes[i / 8..i / 8 + 8]) == 0xFFFF_FFFF_FFFF_FFFF <==> AllIn(bytes, i, i + 64)
  {
    var w := bytes[i / 8..i / 8 + 8];
    Widths();
    WordFull(w);
    forall k: nat | k < 8
      ensures w[k] == 255 <==> AllIn(bytes, i + 8 * k, i + 8 * k + 8)
    {
      assert (i + 8 * k) / 8 == i / 8 + k;
      ByteRun(bytes, i + 8 * k);
    }
    forall j: nat | i <= j < i + 64 && (forall k :: 0 <= k < 8 ==> w[k] == 255) ensures BitIsSet(bytes, j) {
      var k := (j - i) / 8;
      assert w[k] == 255;
      assert i + 8 * k <= j < i + 8 * k + 8;
    }
  }

  class Bitfield {
    var bytes: array<Byte>
    var nbits: nat

    ghost predicate Valid() reads this, bytes { PadClear(bytes[..], nbits) }

    /** The pieces the field marks. */
    function Marks(): set<nat> reads this, bytes { SetOf(bytes[..], nbits) }

    constructor (n: nat)
      ensures Valid() && nbits == n && Marks() == {} && fresh(bytes)
    {
      bytes := new Byte[BytesLen(n)](_ => 0);
      nbits := n;
      new;
      forall i: nat ensures !BitIsSet(bytes[..], i) {
        if i / 8 < bytes.Length {
          ZeroHasNoBit(i % 8);
        }
      }
    }

    method Get(i: nat) returns (held: bool)
      requires Valid()
      ensures held <==> i in Marks()
    {
      if i >= nbits { return false; }
      held := Bit(bytes[i / 8], i % 8);
    }

    method Set(i: nat)
      requires Valid()
      modifies bytes
      ensures Valid() && Marks() == old(Marks()) + (if i < nbits then {i} else {})
    {
      if i >= nbits { return; }
      ghost var was := bytes[..];
      bytes[i / 8] := SetIn(bytes[i / 8], i % 8);
      assert forall k: nat :: BitIsSet(bytes[..], k) <==> k == i || BitIsSet(was, k);
    }

    method Clear(i: nat)
      requires Valid()
      modifies bytes
      ensures Valid() && Marks() == old(Marks()) - {i}
    {
      if i >= nbits { return; }
      ghost var was := bytes[..];
      bytes[i / 8] := ClearIn(bytes[i / 8], i % 8);
      assert forall k: nat :: BitIsSet(bytes[..], k) <==> k != i && BitIsSet(was, k);
    }

    /** `@memset(bits.bytes, 0)`: the in-place wipe under a transfer. */
    method ClearAll()
      requires Valid()
      modifies bytes
      ensures Valid() && Marks() == {}
    {
      for k := 0 to bytes.Length
        invariant forall j :: 0 <= j < k ==> bytes[j] == 0
      {
        bytes[k] := 0;
      }
      forall i: nat ensures !BitIsSet(bytes[..], i) {
        if i / 8 < bytes.Length {
          ZeroHasNoBit(i % 8);
        }
      }
    }

    method AllSet(start: nat, end: nat) returns (all: bool)
      requires Valid()
      ensures all <==> forall i: nat :: start <= i < end ==> i in Marks()
    {
      if start >= end { return true; }
      if end > nbits {
        assert end - 1 !in Marks();
        return false;
      }
      all := ScanSet(start, end);
      ghost var held := Marks();
      MarkedRun(bytes[..], nbits, start, end);
      assert all <==> forall i: nat :: start <= i < end ==> i in held;
    }

    /** Bit by bit up to a byte boundary, then a word at a time, a byte at a
        time, and bit by bit again. */
    method ScanSet(start: nat, end: nat) returns (all: bool)
      requires Valid() && start < end <= nbits
      ensures all <==> AllIn(bytes[..], start, end)
    {
      var i := start;
      while i < end && i % 8 != 0
        invariant start <= i <= end && AllIn(bytes[..], start, i)
      {
        if !Bit(bytes[i / 8], i % 8) {
          assert !BitIsSet(bytes[..], i);
          return false;
        }
        i := i + 1;
      }
      i, all := ScanWords(start, end, i);
      if !all { return; }
      while end - i >= 8
        invariant start <= i <= end && (i % 8 == 0 || i == end) && AllIn(bytes[..], start, i)
      {
        ByteRun(bytes[..], i);
        if bytes[i / 8] != 0xff {
          NotAll(bytes[..], start, i, i + 8, end);
          return false;
        }
        i := i + 8;
      }
      while i < end
        invariant start <= i <= end && AllIn(bytes[..], start, i)
      {
        if !Bit(bytes[i / 8], i % 8) {
          assert !BitIsSet(bytes[..], i);
          return false;
        }
        i := i + 1;
      }
      return true;
    }

    /** The word loop of `allSet`. */
    method ScanWords(start: nat, end: nat, at: nat) returns (i: nat, all: bool)
      requires Valid() && start <= at <= end <= nbits && (at % 8 == 0 || at == end) && AllIn(bytes[..], start, at)
      ensures all ==> start <= i <= end && (i % 8 == 0 || i == end) && AllIn(bytes[..], start, i)
      ensures !all ==> !AllIn(bytes[..], start, end)
    {
      i := at;
      while end - i >= 64
        invariant start <= i <= end && (i % 8 == 0 || i == end) && AllIn(bytes[..], start, i)
      {
        WordRun(bytes[..], i);
        assert bytes[i / 8..i / 8 + 8] == bytes[..][i / 8..i / 8 + 8];
        if UnLe(bytes[i / 8..i / 8 + 8]) != 0xFFFF_FFFF_FFFF_FFFF {
          NotAll(bytes[..], start, i, i + 64, end);
          return i, false;
        }
        i := i + 64;
      }
      all := true;
    }

    /** `resize`; `got` says whether the reallocation succeeded. A buffer of the
        same length in bytes stays where it is. */
    method Resize(n: nat, got: bool)
      requires Valid()
      modifies this, bytes
      ensures Valid()
      ensures nbits == (if got then n else old(nbits))
      ensures Marks() == if got then (set p | p in old(Marks()) && p < n) else old(Marks())
      ensures bytes == old(bytes) || fresh(bytes)
      ensures bytes == old(bytes) <==> !got || BytesLen(n) == BytesLen(old(nbits))
    {
      if !got { return; }
      ghost var was := bytes[..];
      var len := BytesLen(n);
      if len != bytes.Length {
        var next := new Byte[len](_ => 0);
        for k := 0 to Min(len, bytes.Length)
          invariant bytes == old(bytes) && bytes[..] == was && next.Length == len
          invariant forall j :: 0 <= j < len ==> next[j] == if j < k then was[j] else 0
        {
          next[k] := bytes[k];
        }
        bytes := next;
      }
      forall i: nat ensures i / 8 < len ==> (BitIsSet(bytes[..], i) <==> BitIsSet(was, i)) {
        ZeroHasNoBit(i % 8);
      }
      ghost var grown := bytes[..];
      nbits := n;
      if n % 8 != 0 {
        bytes[len - 1] := LowIn(bytes[len - 1], n % 8);
      }
      assert bytes[..] == ClearPad(grown, n);
    }
  }
}
