/** The cull phase of src/cull.zig under the loop of src/fuse_fs.zig. */
module Cull {
  import opened Pieces

  /** Percent free on the cache filesystem. */
  datatype Water = Water(brun: nat, bcull: nat, bstop: nat)

  predicate Ordered(w: Water) { w.brun <= 100 && w.brun > w.bcull && w.bcull > w.bstop }

  datatype Phase = Run | Cull | Stop

  function PhaseOf(free: nat, w: Water, culling: bool): Phase {
    if free <= w.bstop then Stop
    else if culling then (if free >= w.brun then Run else Cull)
    else if free <= w.bcull then Cull
    else Run
  }

  /** `freePercent`: an empty or unknown capacity reads as all free. */
  function FreePercent(avail: nat, blocks: nat): nat { if blocks == 0 then 100 else Min(avail * 100 / blocks, 100) }

  /** The largest percentage that is really free, capped at all. */
  lemma FreePercentIs(avail: nat, blocks: nat)
    ensures blocks == 0 ==> FreePercent(avail, blocks) == 100
    ensures blocks > 0 ==>
              && FreePercent(avail, blocks) * blocks <= avail * 100
              && (if avail < blocks then (FreePercent(avail, blocks) + 1) * blocks > avail * 100
                  else FreePercent(avail, blocks) == 100)
  {
    if blocks > 0 {
      var q, r := avail * 100 / blocks, avail * 100 % blocks;
      assert avail * 100 == blocks * q + r;
      Times(blocks, q, 100);
      Times(blocks, 100, q);
      Capped(avail, blocks, q);
    }
  }

  lemma Capped(avail: nat, blocks: nat, q: nat)
    requires blocks * q <= avail * 100 < blocks * q + blocks
    ensures Min(q, 100) * blocks <= avail * 100
    ensures if avail < blocks then (Min(q, 100) + 1) * blocks > avail * 100 else Min(q, 100) == 100
  {
    Times(blocks, q, 100);
    Times(blocks, 100, q);
  }

  /** A percentage at which soft culling starts, but not hard culling. */
  predicate StartsAt(free: nat, w: Water) { PhaseOf(free, w, false).Cull? }

  /** One at which culling ends. */
  predicate EndsAt(free: nat, w: Water) { PhaseOf(free, w, true).Run? }

  /** The watermarks are ordered exactly when culling can start softly and can end at
      some percentage, and none both starts and ends it, tick by tick. */
  lemma OrderedIsNeeded(w: Water)
    ensures Ordered(w) <==>
      && (exists free: nat :: free <= 100 && StartsAt(free, w))
      && (exists free: nat :: free <= 100 && EndsAt(free, w))
      && (forall free: nat :: free <= 100 ==> !(StartsAt(free, w) && EndsAt(free, w)))
  {
    if Ordered(w) {
      assert StartsAt(w.bcull, w) && EndsAt(w.brun, w);
    }
    var least := if w.brun > w.bstop then w.brun else w.bstop + 1;
    if least <= w.bcull && least <= 100 {
      assert StartsAt(least, w) && EndsAt(least, w);
    }
  }

  /** One tick: a sample, or a failed statfs, which leaves everything as it is. */
  type Tick = Option<nat>

  /** The loop's `culling` after some ticks. */
  function Culling(ticks: seq<Tick>, w: Water): bool
    requires Ordered(w)
  {
    if ticks == [] then false
    else
      var init, last := Culling(ticks[..|ticks| - 1], w), ticks[|ticks| - 1];
      if last.None? then init else !PhaseOf(last.value, w, init).Run?
  }

  predicate InBand(t: Tick, w: Water) { t.None? || w.bcull < t.value < w.brun }

  /** The last tick whose sample lies outside the open band, if there is one. */
  function LastOutside(ticks: seq<Tick>, w: Water): (r: Tick)
    ensures r.Some? ==> !InBand(r, w) && r in ticks
  {
    if ticks == [] then None
    else if InBand(ticks[|ticks| - 1], w) then LastOutside(ticks[..|ticks| - 1], w)
    else ticks[|ticks| - 1]
  }

  /** Over every history the loop is culling exactly when the last sample outside
      the band was at or below bcull; failed samples do not matter. */
  lemma {:induction false} CullingIsHysteresis(ticks: seq<Tick>, w: Water)
    requires Ordered(w)
    ensures Culling(ticks, w) <==> LastOutside(ticks, w).Some? && LastOutside(ticks, w).value <= w.bcull
  {
    if ticks != [] {
      CullingIsHysteresis(ticks[..|ticks| - 1], w);
    }
  }

  /** Tick k turns culling on, or off. */
  predicate Edge(ticks: seq<Tick>, w: Water, k: nat, on: bool)
    requires Ordered(w)
  {
    k < |ticks| && Culling(ticks[..k], w) != on && Culling(ticks[..k + 1], w) == on
  }

  /** The positions at which the loop starts and stops culling. */
  datatype Edges = Edges(starts: seq<nat>, stops: seq<nat>)

  function EdgesOf(ticks: seq<Tick>, w: Water): Edges
    requires Ordered(w)
  {
    if ticks == [] then Edges([], [])
    else
      var n := |ticks| - 1;
      var e, was, now := EdgesOf(ticks[..n], w), Culling(ticks[..n], w), Culling(ticks, w);
      Edges(if now && !was then e.starts + [n] else e.starts, if was && !now then e.stops + [n] else e.stops)
  }

  /** The loop, over a history. */
  method CullLoop(ticks: seq<Tick>, w: Water) returns (edges: Edges)
    requires Ordered(w)
    ensures edges == EdgesOf(ticks, w)
  {
    var culling := false;
    edges := Edges([], []);
    for k := 0 to |ticks|
      invariant culling == Culling(ticks[..k], w) && edges == EdgesOf(ticks[..k], w)
    {
      assert ticks[..k + 1][..k] == ticks[..k];
      if ticks[k].None? { continue; }
      var now := !PhaseOf(ticks[k].value, w, culling).Run?;
      if now && !culling { edges := edges.(starts := edges.starts + [k]); }
      if !now && culling { edges := edges.(stops := edges.stops + [k]); }
      culling := now;
    }
    assert ticks[..|ticks|] == ticks;
  }

  /** start, stop, start, stop, ... */
  predicate Alternate(starts: seq<nat>, stops: seq<nat>) {
    && |stops| <= |starts| <= |stops| + 1
    && (forall i :: 0 <= i < |stops| ==> starts[i] < stops[i])
    && (forall i :: 0 <= i < |starts| - 1 ==> stops[i] < starts[i + 1])
  }

  lemma {:induction false} EdgesExact(ticks: seq<Tick>, w: Water, k: nat)
    requires Ordered(w)
    ensures k in EdgesOf(ticks, w).starts <==> Edge(ticks, w, k, true)
    ensures k in EdgesOf(ticks, w).stops <==> Edge(ticks, w, k, false)
  {
    if ticks != [] {
      var n := |ticks| - 1;
      EdgesExact(ticks[..n], w, k);
      assert ticks[..n + 1] == ticks;
      if k < n {
        assert ticks[..n][..k] == ticks[..k] && ticks[..n][..k + 1] == ticks[..k + 1];
      }
    }
  }

  predicate Below(ks: seq<nat>, n: nat) { forall i :: 0 <= i < |ks| ==> ks[i] < n }

  /** Start and stop edges alternate, beginning with a start. */
  lemma {:induction false} EdgesAlternate(ticks: seq<Tick>, w: Water)
    requires Ordered(w)
    ensures var e := EdgesOf(ticks, w);
      && Alternate(e.starts, e.stops) && |e.starts| == |e.stops| + (if Culling(ticks, w) then 1 else 0)
      && Below(e.starts, |ticks|) && Below(e.stops, |ticks|)
  {
    if ticks != [] {
      EdgesAlternate(ticks[..|ticks| - 1], w);
    }
  }

  /** What an edge looks like on disk: it starts at or below bcull and stops at or
      above brun, so free space moved across the whole band in between. */
  lemma EdgeSamples(ticks: seq<Tick>, w: Water, k: nat, on: bool)
    requires Ordered(w) && Edge(ticks, w, k, on)
    ensures ticks[k].Some? && if on then ticks[k].value <= w.bcull else ticks[k].value >= w.brun
  {
    assert ticks[..k + 1][..k] == ticks[..k];
  }

  /** Hard culling needs no history. */
  lemma StopIsMemoryless(free: nat, w: Water, culling: bool)
    requires Ordered(w)
    ensures PhaseOf(free, w, culling).Stop? <==> free <= w.bstop
    ensures PhaseOf(free, w, culling) != PhaseOf(free, w, !culling) <==> w.bcull < free < w.brun
  {
  }
}
