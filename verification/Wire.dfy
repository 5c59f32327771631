/** Little-endian integers, as the persisted formats write them. */
module Wire {
  import opened Pieces

  function Pow256(k: nat): nat { if k == 0 then 1 else 256 * Pow256(k - 1) }

  /** `writeInt(.little)` of the low k bytes of n. */
  function Le(n: nat, k: nat): (s: seq<Byte>)
    ensures |s| == k
  {
    if k == 0 then [] else [n % 256] + Le(n / 256, k - 1)
  }

  /** `readInt(.little)`. */
  function UnLe(s: seq<Byte>): nat { if s == [] then 0 else s[0] + 256 * UnLe(s[1..]) }

  lemma {:induction false} ReadsBack(n: nat, k: nat)
    requires n < Pow256(k)
    ensures UnLe(Le(n, k)) == n
  {
    if k == 0 {
    } else {
      ReadsBack(n / 256, k - 1);
      assert Le(n, k)[1..] == Le(n / 256, k - 1);
    }
  }

  lemma {:induction false} WritesBack(s: seq<Byte>)
    ensures UnLe(s) < Pow256(|s|) && Le(UnLe(s), |s|) == s
  {
    if s == [] {
    } else {
      WritesBack(s[1..]);
      assert UnLe(s) % 256 == s[0] && UnLe(s) / 256 == UnLe(s[1..]);
    }
  }

  lemma PowPositive(k: nat)
    ensures Pow256(k) > 0
  {
  }

  lemma Unite(n: nat, a: nat, b: nat, q: nat, r: nat, q2: nat, r2: nat)
    requires n == a * q + r && r < a && q == b * q2 + r2 && r2 < b
    ensures n == (a * b) * q2 + (a * r2 + r) && a * r2 + r < a * b
  {
    assert a * (b * q2) == (a * b) * q2;
    Times(a, r2, b);
  }

  lemma DivTwice(n: nat, a: nat, b: nat)
    requires a > 0 && b > 0
    ensures n / (a * b) == n / a / b
  {
    var q, r := n / a, n % a;
    Unite(n, a, b, q, r, q / b, q % b);
    DivModIs(n, a * b, q / b, a * (q % b) + r);
  }

  /** Byte j counts 256^j: the least significant byte comes first. */
  lemma {:induction false} LeByte(n: nat, k: nat, j: nat)
    requires j < k
    ensures Pow256(j) > 0 && Le(n, k)[j] == n / Pow256(j) % 256
  {
    PowPositive(j);
    if j > 0 {
      LeByte(n / 256, k - 1, j - 1);
      DivTwice(n, 256, Pow256(j - 1));
    }
  }

  /** The all-ones word is the word of all-ones bytes. */
  lemma {:induction false} WordFull(s: seq<Byte>)
    ensures UnLe(s) == Pow256(|s|) - 1 <==> forall k :: 0 <= k < |s| ==> s[k] == 255
  {
    if s == [] {
    } else {
      WordFull(s[1..]);
      WritesBack(s[1..]);
      assert (forall k :: 0 <= k < |s| ==> s[k] == 255) <==>
             s[0] == 255 && forall k :: 0 <= k < |s[1..]| ==> s[1..][k] == 255 by {
        assert forall k :: 0 <= k < |s[1..]| ==> s[1..][k] == s[k + 1];
        assert forall k :: 0 < k < |s| ==> s[k] == s[1..][k - 1];
      }
    }
  }

  /** The bit pattern of an i64, read as u64. */
  function Unsigned(x: int): nat
    requires -0x8000_0000_0000_0000 <= x < 0x8000_0000_0000_0000
  {
    if x < 0 then x + 0x1_0000_0000_0000_0000 else x
  }

  function Signed(n: nat): int {
    if n < 0x8000_0000_0000_0000 then n else n - 0x1_0000_0000_0000_0000
  }

  lemma Widths()
    ensures Pow256(4) == 0x1_0000_0000 && Pow256(8) == 0x1_0000_0000_0000_0000
  {
    assert Pow256(1) == 256 && Pow256(2) == 0x1_0000 && Pow256(3) == 0x100_0000;
    assert Pow256(5) == 0x100_0000_0000 && Pow256(6) == 0x1_0000_0000_0000 && Pow256(7) == 0x100_0000_0000_0000;
  }
}
