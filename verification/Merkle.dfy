/** Merkle branches (merkletree/mtree.go, utils/utils.go) against the full tree with the last
    node doubled on odd layers, and against the second implementation in
    engine/equihash/equihash.go. The hash is any function. */
module Merkle {
  import opened ByteStrings

  type Hasher = Bytes -> Bytes

  // ------------------------------------------------------------------
  // The full tree
  // ------------------------------------------------------------------

  /** An even layer: the last node is doubled when there is an odd number. */
  function Evened(layer: seq<Bytes>): (even: seq<Bytes>)
    ensures |even| % 2 == 0 && layer <= even && |even| <= |layer| + 1
  {
    if |layer| % 2 == 0 then layer else layer + [layer[|layer| - 1]]
  }

  function Above(h: Hasher, layer: seq<Bytes>): (up: seq<Bytes>)
    ensures |up| == (|layer| + 1) / 2
  {
    Pairs(h, Evened(layer))
  }

  /** The root: layer upon layer until one node is left. */
  function Root(h: Hasher, layer: seq<Bytes>): Bytes
    requires layer != []
    decreases |layer|
  {
    if |layer| == 1 then layer[0] else Root(h, Above(h, layer))
  }

  function Hashed(h: Hasher, txs: seq<Bytes>): seq<Bytes> {
    seq(|txs|, i requires 0 <= i < |txs| => h(txs[i]))
  }

  // ------------------------------------------------------------------
  // The branch of the first leaf
  // ------------------------------------------------------------------

  /** The branch: on every layer the neighbour of the first node, whose place is kept empty. */
  function Branch(h: Hasher, layer: seq<Bytes>): seq<Bytes>
    decreases |layer|
  {
    if |layer| <= 1 then [] else [layer[1]] + Branch(h, [[]] + Above(h, layer[2..]))
  }

  function Climb(h: Hasher, f: Bytes, steps: seq<Bytes>): Bytes
    decreases |steps|
  {
    if steps == [] then f else Climb(h, h(f + steps[0]), steps[1..])
  }

  /** The layer above starts with the first two nodes' hash; the others pair up on their own. */
  lemma AboveFirst(h: Hasher, a: Bytes, b: Bytes, rest: seq<Bytes>)
    ensures Above(h, [a, b] + rest) == [h(a + b)] + Above(h, rest)
  {
    var layer := [a, b] + rest;
    var l, r := Above(h, layer), [h(a + b)] + Above(h, rest);
    assert Evened(layer) == [a, b] + Evened(rest);
    forall i | 0 <= i < |l| ensures l[i] == r[i] {
      if i > 0 {
        assert Evened(layer)[2 * i] == Evened(rest)[2 * (i - 1)];
        assert Evened(layer)[2 * i + 1] == Evened(rest)[2 * (i - 1) + 1];
      }
    }
  }

  /** For every first leaf and every list of others, climbing the branch that was computed
      without the leaf gives the root of the full tree. */
  lemma {:induction false} BranchGivesRoot(h: Hasher, f: Bytes, nil: Bytes, txs: seq<Bytes>)
    ensures Climb(h, f, Branch(h, [nil] + txs)) == Root(h, [f] + txs)
    decreases |txs|
  {
    if txs != [] {
      var rest := Above(h, txs[1..]);
      assert ([nil] + txs)[1] == txs[0] && ([nil] + txs)[2..] == txs[1..];
      assert [f] + txs == [f, txs[0]] + txs[1..];
      AboveFirst(h, f, txs[0], txs[1..]);
      BranchGivesRoot(h, h(f + txs[0]), [], rest);
      assert ([txs[0]] + Branch(h, [[]] + rest))[1..] == Branch(h, [[]] + rest);
    }
  }

  function Pow2(k: nat): nat {
    if k == 0 then 1 else 2 * Pow2(k - 1)
  }

  /** The branch of n leaves has ceil(log2 n) steps. */
  lemma {:induction false} StepCount(h: Hasher, layer: seq<Bytes>)
    requires layer != []
    ensures
      var k := |Branch(h, layer)|;
      |layer| <= Pow2(k) && (k > 0 ==> Pow2(k - 1) < |layer|)
    decreases |layer|
  {
    hide Above;
    if |layer| > 1 {
      var up := [[]] + Above(h, layer[2..]);
      StepCount(h, up);
      var k := |Branch(h, up)|;
      hide Branch;
      assert |up| == (|layer| + 1) / 2;
      assert Pow2(k + 1) == 2 * Pow2(k);
    }
  }

  /** What the stratum job's branch gives for a coinbase is the root that the block submission
      computes from the raw transactions. */
  lemma ImplementationsAgree(h: Hasher, rawTxs: seq<Bytes>)
    requires rawTxs != []
    ensures Climb(h, h(rawTxs[0]), Branch(h, [[]] + Hashed(h, rawTxs[1..]))) == Root(h, Hashed(h, rawTxs))
  {
    hide Climb, Branch, Root;
    BranchGivesRoot(h, h(rawTxs[0]), [], Hashed(h, rawTxs[1..]));
    assert Hashed(h, rawTxs) == [h(rawTxs[0])] + Hashed(h, rawTxs[1..]);
  }

  // ------------------------------------------------------------------
  // The code
  // ------------------------------------------------------------------

  /** Range: start, start + step, ... as long as stop is not reached. A step of zero never
      gets there from above. */
  method Range(start: int, stop: int, step: int) returns (result: seq<int>)
    requires step != 0 || start <= stop
    ensures forall k | 0 <= k < |result| ::
              result[k] == start + k * step && if step > 0 then result[k] < stop else result[k] > stop
    ensures if step > 0 then start + |result| * step >= stop else start + |result| * step <= stop
  {
    if (step > 0 && start >= stop) || (step < 0 && start <= stop) {
      return [];
    }
    result := [];
    var i := start;
    while true
      invariant i == start + |result| * step
      invariant forall k | 0 <= k < |result| ::
                  result[k] == start + k * step && if step > 0 then result[k] < stop else result[k] > stop
      decreases if step > 0 then stop - i else i - stop
    {
      if step > 0 {
        if i < stop {
          result := result + [i];
        } else {
          break;
        }
      } else {
        if i > stop {
          result := result + [i];
        } else {
          break;
        }
      }
      i := i + step;
    }
  }

  /** CalculateSteps. */
  method CalculateSteps(data: seq<Bytes>, h: Hasher) returns (steps: seq<Bytes>)
    ensures steps == Branch(h, data)
  {
    hide Above, Evened;
    var level := data;
    steps := [];
    var first: seq<Bytes> := [[]];
    var start := 2;
    var count := |level|;
    while count > 1
      invariant count == |level|
      invariant Branch(h, data) == steps + Branch(h, level)
      decreases count
    {
      ghost var layer := level;
      steps := steps + [level[1]];
      if count % 2 != 0 {
        level := level + [level[|level| - 1]];
      }
      IsEvened(layer, level);
      var places := Range(start, count, 2);
      var next := HashPairs(h, level, places, layer);
      level := first + next;
      count := |level|;
    }
  }

  lemma IsEvened(layer: seq<Bytes>, even: seq<Bytes>)
    requires layer != [] && even == if |layer| % 2 != 0 then layer + [layer[|layer| - 1]] else layer
    ensures even == Evened(layer)
  {
  }

  /** The hashes of the pairs at the given places of an evened layer. */
  method HashPairs(h: Hasher, level: seq<Bytes>, places: seq<int>, ghost layer: seq<Bytes>) returns (next: seq<Bytes>)
    requires |layer| > 1 && level == Evened(layer)
    requires forall k | 0 <= k < |places| :: places[k] == 2 + k * 2 && places[k] < |layer|
    requires 2 + |places| * 2 >= |layer|
    ensures next == Above(h, layer[2..])
  {
    hide Above;
    next := [];
    RangeCounts(places, |layer|);
    for i := 0 to |places|
      invariant |next| == i && forall k | 0 <= k < i :: next[k] == Above(h, layer[2..])[k]
    {
      AboveTail(h, layer, i);
      next := next + [h(level[places[i]] + level[places[i] + 1])];
    }
  }

  lemma RangeCounts(r: seq<int>, n: nat)
    requires n > 1 && forall k | 0 <= k < |r| :: r[k] == 2 + k * 2 && r[k] < n
    requires 2 + |r| * 2 >= n
    ensures |r| == (n - 1) / 2
    ensures forall k | 0 <= k < |r| :: r[k] == 2 + 2 * k && r[k] + 1 < n + n % 2
  {
    if |r| > 0 { assert r[|r| - 1] < n; }
  }

  lemma AboveTail(h: Hasher, layer: seq<Bytes>, i: nat)
    requires |layer| >= 2 && 2 * i + 2 < |layer|
    ensures 2 * i + 3 < |Evened(layer)|
    ensures Above(h, layer[2..])[i] == h(Evened(layer)[2 * i + 2] + Evened(layer)[2 * i + 3])
  {
    assert Evened(layer[2..])[2 * i] == Evened(layer)[2 * i + 2];
    assert Evened(layer[2..])[2 * i + 1] == Evened(layer)[2 * i + 3];
  }

  class MerkleTree {
    const steps: seq<Bytes>
    const hasher: Hasher

    constructor (data: seq<Bytes>, hasher: Hasher)
      ensures this.steps == Branch(hasher, data) && this.hasher == hasher
    {
      var branch := CalculateSteps(data, hasher);
      steps, this.hasher := branch, hasher;
    }

    /** WithFirst. */
    method WithFirst(f0: Bytes) returns (f: Bytes)
      ensures f == Climb(hasher, f0, steps)
    {
      f := f0;
      assert steps[0..] == steps;
      for i := 0 to |steps|
        invariant Climb(hasher, f0, steps) == Climb(hasher, f, steps[i..])
      {
        assert steps[i..][1..] == steps[i + 1..];
        f := hasher(f + steps[i]);
      }
    }
  }

  /** merkleRoot of the equihash engine; it indexes the first transaction's layer, so there has
      to be one. */
  method MerkleRoot(h: Hasher, rawTxs: seq<Bytes>) returns (root: Bytes)
    requires rawTxs != []
    ensures root == Root(h, Hashed(h, rawTxs))
  {
    var level: seq<Bytes> := [];
    for i := 0 to |rawTxs|
      invariant |level| == i && forall k | 0 <= k < i :: level[k] == h(rawTxs[k])
    {
      level := level + [h(rawTxs[i])];
    }
    assert level == Hashed(h, rawTxs);
    hide Hashed, Above;
    while |level| > 1
      invariant level != [] && Root(h, level) == Root(h, Hashed(h, rawTxs))
      decreases |level|
    {
      level := NextLevel(h, level);
    }
    root := level[0];
  }

  /** One turn of merkleRoot's outer loop. */
  method NextLevel(h: Hasher, level0: seq<Bytes>) returns (next: seq<Bytes>)
    requires level0 != []
    ensures next == Above(h, level0)
  {
    var level := level0;
    if |level| % 2 == 1 {
      level := level + [level[|level| - 1]];
    }
    next := [];
    var i := 0;
    while i < |level|
      invariant 0 <= i <= |level| && i % 2 == 0 && |next| == i / 2
      invariant forall k | 0 <= k < |next| :: next[k] == h(level[2 * k] + level[2 * k + 1])
    {
      next := next + [h(level[i] + level[i + 1])];
      i := i + 2;
    }
  }

  /** The two implementations agree on every non-empty list of transactions. */
  method BothRoots(h: Hasher, rawTxs: seq<Bytes>) returns (viaBranch: Bytes, viaTree: Bytes)
    requires rawTxs != []
    ensures viaBranch == viaTree == Root(h, Hashed(h, rawTxs))
  {
    var tree := new MerkleTree([[]] + Hashed(h, rawTxs[1..]), h);
    viaBranch := tree.WithFirst(h(rawTxs[0]));
    viaTree := MerkleRoot(h, rawTxs);
    ImplementationsAgree(h, rawTxs);
  }
}
