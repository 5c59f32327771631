/** Text the parsers of several components share: search, trimming, lines and
    unsigned decimals. */
module Text {
  import opened Pieces

  /** First position of c, `findScalar`. */
  function Find(s: string, c: char): (r: Option<nat>)
    ensures r.None? ==> c !in s
    ensures r.Some? ==> r.value < |s| && s[r.value] == c && c !in s[..r.value]
  {
    if s == [] then None
    else if s[0] == c then Some(0)
    else
      assert s == [s[0]] + s[1..];
      match Find(s[1..], c)
      case None => None
      case Some(k) =>
        assert s[..k + 1] == [s[0]] + s[1..][..k];
        Some(k + 1)
  }

  lemma FindUnique(s: string, c: char, k: nat)
    requires k < |s| && s[k] == c && c !in s[..k]
    ensures Find(s, c) == Some(k)
  {
    var f := Find(s, c);
    assert c in s;
    assert forall j :: 0 <= j < k ==> s[j] == s[..k][j];
    assert forall j :: 0 <= j < f.value ==> s[j] == s[..f.value][j];
  }

  lemma FindSplit(a: string, c: char, b: string)
    requires c !in a
    ensures Find(a + [c] + b, c) == Some(|a|)
  {
    var s := a + [c] + b;
    assert s[..|a|] == a;
    FindUnique(s, c, |a|);
  }

  predicate Blank(c: char) { c == ' ' || c == '\t' }

  /** `[[:space:]]`. */
  predicate Space(c: char) { c in " \t\n\r\U{0B}\U{0C}" }

  lemma SpaceIs(c: char)
    ensures Space(c) <==> 9 <= c as int <= 13 || c as int == 32
  {
  }

  function TrimLeft(s: string, drop: char -> bool): string {
    if s != [] && drop(s[0]) then TrimLeft(s[1..], drop) else s
  }

  function TrimRight(s: string, drop: char -> bool): string {
    if s != [] && drop(s[|s| - 1]) then TrimRight(s[..|s| - 1], drop) else s
  }

  function Trim(s: string, drop: char -> bool): string { TrimRight(TrimLeft(s, drop), drop) }

  predicate All(s: string, p: char -> bool) { forall c :: c in s ==> p(c) }

  lemma {:induction false} TrimLeftDrops(pre: string, s: string, drop: char -> bool)
    requires All(pre, drop) && (s == [] || !drop(s[0]))
    ensures TrimLeft(pre + s, drop) == s
  {
    if pre == [] {
      assert pre + s == s;
    } else {
      assert (pre + s)[1..] == pre[1..] + s;
      assert drop(pre[0]);
      TrimLeftDrops(pre[1..], s, drop);
    }
  }

  lemma {:induction false} TrimRightDrops(s: string, post: string, drop: char -> bool)
    requires All(post, drop) && (s == [] || !drop(s[|s| - 1]))
    ensures TrimRight(s + post, drop) == s
  {
    if post == [] {
      assert s + post == s;
    } else {
      assert (s + post)[..|s + post| - 1] == s + post[..|post| - 1];
      assert post[|post| - 1] in post;
      TrimRightDrops(s, post[..|post| - 1], drop);
    }
  }

  lemma TrimDrops(pre: string, s: string, post: string, drop: char -> bool)
    requires All(pre, drop) && All(post, drop) && s != [] && !drop(s[0]) && !drop(s[|s| - 1])
    ensures Trim(pre + s + post, drop) == s
  {
    assert pre + s + post == pre + (s + post);
    TrimLeftDrops(pre, s + post, drop);
    TrimRightDrops(s, post, drop);
  }

  lemma TrimKeeps(s: string, drop: char -> bool)
    requires s != [] && !drop(s[0]) && !drop(s[|s| - 1])
    ensures Trim(s, drop) == s
  {
  }

  lemma AllJoin(a: string, b: string, drop: char -> bool)
    requires All(a, drop) && All(b, drop)
    ensures All(a + b, drop)
  {
  }

  lemma {:induction false} TrimLeftParts(s: string, drop: char -> bool) returns (pre: string)
    ensures s == pre + TrimLeft(s, drop) && All(pre, drop)
    ensures TrimLeft(s, drop) == "" || !drop(TrimLeft(s, drop)[0])
  {
    if s != "" && drop(s[0]) {
      pre := TrimLeftParts(s[1..], drop);
      AllJoin([s[0]], pre, drop);
      pre := [s[0]] + pre;
      assert s == [s[0]] + s[1..];
    } else {
      pre := "";
    }
  }

  predicate Clear(s: string, drop: char -> bool) { s == "" || (!drop(s[0]) && !drop(s[|s| - 1])) }

  lemma {:induction false} TrimRightParts(s: string, drop: char -> bool) returns (post: string)
    ensures s == TrimRight(s, drop) + post && All(post, drop)
    ensures TrimRight(s, drop) == "" || !drop(TrimRight(s, drop)[|TrimRight(s, drop)| - 1])
  {
    if s != "" && drop(s[|s| - 1]) {
      post := TrimRightParts(s[..|s| - 1], drop);
      AllJoin(post, [s[|s| - 1]], drop);
      post := post + [s[|s| - 1]];
      assert s == s[..|s| - 1] + [s[|s| - 1]];
    } else {
      post := "";
    }
  }

  /** Text and what trimming leaves of it. */
  lemma TrimParts(s: string, drop: char -> bool) returns (pre: string, post: string)
    ensures s == pre + (Trim(s, drop) + post) && All(pre, drop) && All(post, drop) && Clear(Trim(s, drop), drop)
  {
    pre := TrimLeftParts(s, drop);
    post := TrimRightParts(TrimLeft(s, drop), drop);
    assert Trim(s, drop) != "" ==> Trim(s, drop)[0] == TrimLeft(s, drop)[0];
  }

  lemma TrimIs(pre: string, s: string, post: string, drop: char -> bool)
    requires All(pre, drop) && All(post, drop) && Clear(s, drop)
    ensures Trim(pre + (s + post), drop) == s
  {
    if s == "" {
      AllJoin(pre, post, drop);
      TrimLeftDrops(pre + post, "", drop);
      assert pre + (s + post) == (pre + post) + "";
    } else {
      assert pre + (s + post) == pre + s + post;
      TrimDrops(pre, s, post, drop);
    }
  }

  /* ---- unsigned decimals ---- */

  const U64_MAX: nat := 0xFFFF_FFFF_FFFF_FFFF

  predicate IsDigit(c: char) { '0' <= c <= '9' }

  predicate Digits(s: string) { forall c :: c in s ==> IsDigit(c) }

  function DigitOf(c: char): nat
    requires IsDigit(c)
  {
    c as int - '0' as int
  }

  function CharOf(d: nat): (c: char)
    requires d < 10
    ensures IsDigit(c) && DigitOf(c) == d
  {
    (d + '0' as int) as char
  }

  /** The number a digit string of any length names. */
  function Value(s: string): nat
    requires Digits(s)
  {
    if s == [] then 0 else 10 * Value(s[..|s| - 1]) + DigitOf(s[|s| - 1])
  }

  /** `{d}`. */
  function Print(n: nat): (s: string)
    ensures s != [] && Digits(s)
  {
    if n < 10 then [CharOf(n)] else Print(n / 10) + [CharOf(n % 10)]
  }

  lemma {:induction false} PrintValue(n: nat)
    ensures Value(Print(n)) == n
  {
    var s := Print(n);
    if n < 10 {
      assert s[..|s| - 1] == [];
    } else {
      assert s[..|s| - 1] == Print(n / 10);
      PrintValue(n / 10);
    }
  }

  /** What `parseU64Fast` accepts: digits, at least one, whose value fits. */
  function ParseU64(s: string): Option<nat> {
    if s == [] || !Digits(s) || Value(s) > U64_MAX then None else Some(Value(s))
  }

  lemma PrintParses(n: nat)
    requires n <= U64_MAX
    ensures ParseU64(Print(n)) == Some(n)
  {
    PrintValue(n);
  }

  /** Leading zeros change nothing, however many there are. */
  lemma {:induction false} LeadingZeros(k: nat, s: string)
    requires Digits(s)
    ensures Digits(seq(k, _ => '0') + s) && Value(seq(k, _ => '0') + s) == Value(s)
  {
    var z: string := seq(k, _ => '0');
    var all := z + s;
    if s != [] {
      assert all[..|all| - 1] == z + s[..|s| - 1];
      LeadingZeros(k, s[..|s| - 1]);
    } else if k > 0 {
      assert all[..|all| - 1] == seq(k - 1, _ => '0') + [];
      LeadingZeros(k - 1, []);
    }
  }

  lemma {:induction false} PrefixIsSmaller(s: string, k: nat)
    requires Digits(s) && k <= |s|
    ensures Digits(s[..k]) && Value(s[..k]) <= Value(s)
    decreases |s|
  {
    if k < |s| {
      PrefixIsSmaller(s[..|s| - 1], k);
      assert s[..|s| - 1][..k] == s[..k];
    } else {
      assert s[..k] == s;
    }
  }

  /** `parseU64Fast`: a checked multiply and add per digit. Its early way out on
      overflow is right because a longer number is no smaller. */
  method ParseU64Fast(s: string) returns (r: Option<nat>)
    ensures r == ParseU64(s)
  {
    if s == [] { return None; }
    var n := 0;
    for k := 0 to |s|
      invariant Digits(s[..k]) && n == Value(s[..k]) <= U64_MAX
    {
      if !IsDigit(s[k]) {
        assert s[k] in s;
        return None;
      }
      assert s[..k + 1][..k] == s[..k];
      if n * 10 > U64_MAX || n * 10 + DigitOf(s[k]) > U64_MAX {
        if Digits(s) { PrefixIsSmaller(s, k + 1); }
        return None;
      }
      n := n * 10 + DigitOf(s[k]);
    }
    assert s[..|s|] == s;
    return Some(n);
  }
}
