/** Lists without repetition, as `dict.fromkeys` and the seen sets of the scripts
    leave them. */
module Lists {
  /** First occurrences, in order: `dict.fromkeys`. */
  function Dedup<T(==, !new)>(xs: seq<T>): (d: seq<T>)
    ensures forall x :: x in d <==> x in xs
    ensures forall i, j :: 0 <= i < j < |d| ==> d[i] != d[j]
  {
    if xs == [] then []
    else
      var init, x := xs[..|xs| - 1], xs[|xs| - 1];
      assert xs == init + [x];
      if x in init then Dedup(init) else Dedup(init) + [x]
  }

  lemma DedupNext<T(!new)>(xs: seq<T>, x: T)
    ensures Dedup(xs + [x]) == if x in xs then Dedup(xs) else Dedup(xs) + [x]
  {
    assert (xs + [x])[..|xs|] == xs;
  }

  lemma {:induction false} DedupLeft<T(!new)>(a: seq<T>, b: seq<T>)
    ensures Dedup(Dedup(a) + b) == Dedup(a + b)
    decreases |b|
  {
    if b == [] {
      assert Dedup(a) + b == Dedup(a) && a + b == a;
      DedupIsItself(Dedup(a));
    } else {
      var init, x := b[..|b| - 1], b[|b| - 1];
      DedupLeft(a, init);
      assert b == init + [x];
      assert Dedup(a) + b == (Dedup(a) + init) + [x] && a + b == (a + init) + [x];
      DedupNext(Dedup(a) + init, x);
      DedupNext(a + init, x);
      assert x in Dedup(a) + init <==> x in a + init;
    }
  }

  lemma {:induction false} DedupIsItself<T(!new)>(xs: seq<T>)
    requires forall i, j :: 0 <= i < j < |xs| ==> xs[i] != xs[j]
    ensures Dedup(xs) == xs
  {
    if xs != [] {
      DedupIsItself(xs[..|xs| - 1]);
    }
  }

  /** Deduplicating a part first changes nothing. */
  lemma {:induction false} DedupRight<T(!new)>(a: seq<T>, b: seq<T>)
    ensures Dedup(a + Dedup(b)) == Dedup(a + b)
    decreases |b|
  {
    if b == [] {
      assert Dedup(b) == b;
    } else {
      var init, x := b[..|b| - 1], b[|b| - 1];
      DedupRight(a, init);
      assert b == init + [x] && a + b == a + init + [x];
      DedupNext(init, x);
      DedupNext(a + init, x);
      if x !in init {
        assert a + Dedup(b) == a + Dedup(init) + [x];
        DedupNext(a + Dedup(init), x);
      }
    }
  }

  lemma {:induction false} DedupGrows<T(!new)>(a: seq<T>, b: seq<T>)
    ensures Dedup(a) <= Dedup(a + b)
    decreases |b|
  {
    if b == [] {
      assert a + b == a;
    } else {
      var n := |b| - 1;
      DedupGrows(a, b[..n]);
      assert a + b == a + b[..n] + [b[n]];
      DedupNext(a + b[..n], b[n]);
    }
  }

  /** First position of x. */
  function FirstAt<T(==)>(xs: seq<T>, x: T): (k: nat)
    requires x in xs
    ensures k < |xs| && xs[k] == x && x !in xs[..k]
  {
    if xs[0] == x then 0
    else
      assert xs == [xs[0]] + xs[1..];
      var k := FirstAt(xs[1..], x);
      assert xs[..k + 1] == [xs[0]] + xs[1..][..k];
      k + 1
  }

  lemma {:induction false} FirstIs<T>(xs: seq<T>, x: T, k: nat)
    requires k < |xs| && xs[k] == x && x !in xs[..k]
    ensures FirstAt(xs, x) == k
  {
    if k > 0 {
      assert xs[0] in xs[..k];
      assert xs[..k] == [xs[0]] + xs[1..][..k - 1];
      FirstIs(xs[1..], x, k - 1);
    }
  }

  lemma FirstStays<T(!new)>(init: seq<T>, x: T, y: T)
    requires y in init
    ensures FirstAt(init + [x], y) == FirstAt(init, y)
  {
    assert (init + [x])[..FirstAt(init, y)] == init[..FirstAt(init, y)];
    FirstIs(init + [x], y, FirstAt(init, y));
  }

  /** What is kept is kept in the order of first occurrence. */
  lemma {:induction false} DedupOrder<T(!new)>(xs: seq<T>, i: nat, j: nat)
    requires i < j < |Dedup(xs)|
    ensures var d := Dedup(xs); FirstAt(xs, d[i]) < FirstAt(xs, d[j])
    decreases |xs|
  {
    var init, x := xs[..|xs| - 1], xs[|xs| - 1];
    assert xs == init + [x];
    var d := Dedup(xs);
    FirstStays(init, x, d[i]);
    if j < |Dedup(init)| {
      FirstStays(init, x, d[j]);
      DedupOrder(init, i, j);
    } else {
      FirstIs(xs, x, |init|);
    }
  }
}
