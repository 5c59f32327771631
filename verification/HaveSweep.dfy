/** The `/have` sweep of scripts/cluster_verify.py: every piece of a file is
    looked for on one node, round robin, in that node's bitmap. */
module HaveSweep {
  import opened Pieces
  import opened Bitfields

  /** One node's reply: the advertised grid, None when absent or malformed, and
      the bitmap body. */
  datatype Reply = Reply(ps: Option<nat>, bits: seq<Byte>)

  function Node(p: nat, nodes: nat): (n: nat)
    requires nodes > 0
    ensures 1 <= n <= nodes
  {
    p % nodes + 1
  }

  datatype Fault = BadGrid | BadLength | Missing

  /** The script's verdict on the reply for piece p. */
  function Judge(r: Reply, p: nat, total: nat): Option<Fault> {
    if r.ps.None? || r.ps.value == 0 then Some(BadGrid)
    else if |r.bits| != BytesLen(total) then Some(BadLength)
    else if !BitIsSet(r.bits, p) then Some(Missing)
    else None
  }

  /** The bit test as the script writes it, `bits[p // 8] & (1 << p % 8)`, is only
      reached at the right length, so it never leaves the bitmap. */
  lemma InsideBitmap(total: nat, p: nat)
    requires p < total
    ensures p / 8 < BytesLen(total)
  {
  }

  /** `replies[p]` is what the node of piece p answered when it was asked. */
  method Sweep(replies: seq<Reply>, nodes: nat) returns (passed: bool, asked: seq<(nat, nat)>)
    requires nodes > 0
    ensures passed <==> forall p :: 0 <= p < |replies| ==> Judge(replies[p], p, |replies|) == None
    // each piece once, in order, on its own node, up to the first fault
    ensures |asked| <= |replies| && forall k :: 0 <= k < |asked| ==> asked[k] == (k, Node(k, nodes))
    ensures passed ==> |asked| == |replies|
    ensures !passed ==> |asked| > 0 && Judge(replies[|asked| - 1], |asked| - 1, |replies|).Some? &&
                        forall p :: 0 <= p < |asked| - 1 ==> Judge(replies[p], p, |replies|) == None
  {
    asked := [];
    var total := |replies|;
    for p := 0 to total
      invariant |asked| == p && forall k :: 0 <= k < p ==> asked[k] == (k, Node(k, nodes))
      invariant forall k :: 0 <= k < p ==> Judge(replies[k], k, total) == None
    {
      asked := asked + [(p, Node(p, nodes))];
      var r := replies[p];
      var grid := r.ps.Some? && r.ps.value != 0;
      InsideBitmap(total, p);
      var bit := |r.bits| == BytesLen(total) && Bit(r.bits[p / 8], p % 8);
      if !grid || |r.bits| != BytesLen(total) || !bit { return false, asked; }
    }
    passed := true;
  }

  /** A reply is good exactly if it names a grid, its bitmap is the shortest with room
      for all pieces, and the piece's bit is set in it. */
  lemma JudgeIs(r: Reply, p: nat, total: nat)
    requires p < total
    ensures Judge(r, p, total) == None <==>
      && r.ps.Some? && r.ps.value > 0
      && 8 * |r.bits| - 8 < total <= 8 * |r.bits|
      && Pow2(p % 8) > 0 && r.bits[p / 8] / Pow2(p % 8) % 2 == 1
  {
    if |r.bits| == BytesLen(total) {
      BitIs(r.bits[p / 8], p % 8);
    }
  }

  /** The nodes take turns. */
  lemma RoundRobin(p: nat, nodes: nat)
    requires nodes > 0
    ensures Node(0, nodes) == 1
    ensures Node(p + 1, nodes) == if Node(p, nodes) == nodes then 1 else Node(p, nodes) + 1
  {
    Turn(p, nodes);
  }

  lemma Turn(p: nat, nodes: nat)
    requires nodes > 0
    ensures (p + 1) % nodes == if p % nodes == nodes - 1 then 0 else p % nodes + 1
  {
    var q, r := p / nodes, p % nodes;
    if r == nodes - 1 {
      assert nodes * (q + 1) == nodes * q + nodes;
      DivModIs(p + 1, nodes, q + 1, 0);
    } else {
      DivModIs(p + 1, nodes, q, r + 1);
    }
  }

  /** The pieces a node is asked for are every n-th one, so a passing sweep has
      seen every piece marked somewhere and every node answer when there are at
      least as many pieces as nodes. */
  lemma EveryNodeIsAsked(node: nat, nodes: nat, total: nat)
    requires 1 <= node <= nodes <= total
    ensures exists p: nat :: p < total && Node(p, nodes) == node
  {
    assert Node(node - 1, nodes) == node;
  }

  /** What the daemon serves passes: the bytes of a valid bitfield of that many
      pieces, all of them held. */
  lemma FullFieldPasses(bytes: seq<Byte>, total: nat, ps: nat, p: nat)
    requires PadClear(bytes, total) && ps > 0 && p < total
    ensures Judge(Reply(Some(ps), bytes), p, total) == None <==> p in SetOf(bytes, total)
  {
  }
}
