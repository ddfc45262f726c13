/** CryptoNote's tree_hash (engine/cryptonote/blob.go): the in-place reduction computes the
    root of a perfect binary tree whose bottom layer is only partly paired. */
module TreeHashing {
  import opened ByteStrings

  type Keccak = Bytes -> Digest

  /** A power of two. */
  predicate Perfect(n: nat) {
    n == 1 || (n > 1 && n % 2 == 0 && Perfect(n / 2))
  }

  /** Root of the perfect tree over the slots: each half on its own, then both digests. */
  function Root(keccak: Keccak, slots: seq<Bytes>): Bytes
    requires Perfect(|slots|)
    decreases |slots|
  {
    if |slots| == 1 then slots[0]
    else
      var h := |slots| / 2;
      keccak(Root(keccak, slots[..h]) + Root(keccak, slots[h..]))
  }

  /** The power of two that n leaves collapse to. */
  function Width(n: nat): (w: nat)
    requires n >= 2
    ensures Perfect(w) && w < n <= 2 * w
  {
    if n == 2 then 1
    else
      var w := Width((n + 1) / 2);
      assert Perfect(2 * w);
      2 * w
  }

  /** The slots of the perfect tree: the first 2w - n leaves as they are, the rest in pairs. */
  function Slots(keccak: Keccak, leaves: seq<Bytes>): (slots: seq<Bytes>)
    requires |leaves| >= 2
    ensures |slots| == Width(|leaves|)
  {
    var kept := 2 * Width(|leaves|) - |leaves|;
    leaves[..kept] + Pairs(keccak, leaves[kept..])
  }

  /** make([]byte, 32) and copy. */
  function Fit32(b: Bytes): (d: Digest)
    ensures |b| <= 32 ==> b <= d && forall i | |b| <= i < 32 :: d[i] == 0
    ensures |b| > 32 ==> d <= b
  {
    if |b| >= 32 then b[..32] else b + Zeros(32 - |b|)
  }

  /** tree_hash: nothing for no leaves, the leaf itself for one. */
  function TreeRoot(keccak: Keccak, leaves: seq<Bytes>): Bytes {
    if leaves == [] then []
    else if |leaves| == 1 then Fit32(leaves[0])
    else Root(keccak, Slots(keccak, leaves))
  }

  // ------------------------------------------------------------------
  // Powers of two
  // ------------------------------------------------------------------

  lemma {:induction false} PerfectGap(v: nat, w: nat)
    requires Perfect(v) && Perfect(w) && v < w
    ensures 2 * v <= w
  {
    if v > 1 {
      PerfectGap(v / 2, w / 2);
    }
  }

  /** There is only one power of two with w < n <= 2w. */
  lemma WidthUnique(n: nat, w: nat)
    requires n >= 2 && Perfect(w) && w < n <= 2 * w
    ensures w == Width(n)
  {
    if w < Width(n) {
      PerfectGap(w, Width(n));
    } else if Width(n) < w {
      PerfectGap(Width(n), w);
    }
  }

  // ------------------------------------------------------------------
  // One layer up
  // ------------------------------------------------------------------

  lemma PairsSplit(keccak: Keccak, a: seq<Bytes>, b: seq<Bytes>)
    requires |a| % 2 == 0 && |b| % 2 == 0
    ensures Pairs(keccak, a + b) == Pairs(keccak, a) + Pairs(keccak, b)
  {
    var l, r := Pairs(keccak, a + b), Pairs(keccak, a) + Pairs(keccak, b);
    forall j | 0 <= j < |l| ensures l[j] == r[j] {
      if j < |a| / 2 {
        assert (a + b)[2 * j] == a[2 * j] && (a + b)[2 * j + 1] == a[2 * j + 1];
      } else {
        var k := j - |a| / 2;
        assert (a + b)[2 * j] == b[2 * k] && (a + b)[2 * j + 1] == b[2 * k + 1];
      }
    }
  }

  /** Pairing a whole layer leaves the root as it is. */
  lemma {:induction false} RootOfPairs(keccak: Keccak, layer: seq<Bytes>)
    requires Perfect(|layer|) && |layer| >= 2
    ensures Root(keccak, Pairs(keccak, layer)) == Root(keccak, layer)
    decreases |layer|
  {
    var up := Pairs(keccak, layer);
    if |layer| == 2 {
      assert up[0] == keccak(layer[0] + layer[1]);
      assert layer[..1] == [layer[0]] && layer[1..] == [layer[1]];
    } else {
      var h := |layer| / 2;
      var a, b := layer[..h], layer[h..];
      assert layer == a + b;
      PairsSplit(keccak, a, b);
      assert up[..h / 2] == Pairs(keccak, a) && up[h / 2..] == Pairs(keccak, b);
      RootOfPairs(keccak, a);
      RootOfPairs(keccak, b);
    }
  }

  // ------------------------------------------------------------------
  // treeHash
  // ------------------------------------------------------------------

  method TreeHash(keccak: Keccak, hashes: seq<Bytes>) returns (root: Bytes)
    ensures root == TreeRoot(keccak, hashes)
  {
    if |hashes| == 0 {
      return [];
    } else if |hashes| == 1 {
      return Fit32(hashes[0]);
    } else if |hashes| == 2 {
      TwoLeaves(keccak, hashes);
      return keccak(hashes[0] + hashes[1]);
    }
    var count := |hashes|;
    var cnt: nat := HalfPower(count);
    WidthUnique(count, cnt);
    var ints := new Bytes[cnt](_ => []);
    FillSlots(keccak, hashes, cnt, ints);
    ghost var slots := Slots(keccak, hashes);
    assert ints[..cnt] == slots;
    while cnt > 2
      invariant Perfect(cnt) && 2 <= cnt <= ints.Length
      invariant Root(keccak, ints[..cnt]) == Root(keccak, slots)
    {
      ghost var layer := ints[..cnt];
      RootOfPairs(keccak, layer);
      PairUp(keccak, ints, cnt);
      cnt := cnt / 2;
    }
    assert ints[..2][..1] == [ints[0]] && ints[..2][1..] == [ints[1]];
    root := keccak(ints[0] + ints[1]);
  }

  /** The search for the power of two, and its half. */
  method HalfPower(count: nat) returns (cnt: nat)
    requires count > 2
    ensures Perfect(cnt) && cnt >= 2 && cnt < count <= 2 * cnt
  {
    var pow := 2;
    while pow < count
      invariant Perfect(pow) && pow >= 2 && pow / 2 < count
      decreases count - pow
    {
      pow := pow * 2;
    }
    cnt := pow / 2;
  }

  /** The bottom layer: the first leaves copied, the rest hashed in pairs, none left over. */
  method FillSlots(keccak: Keccak, hashes: seq<Bytes>, cnt: nat, ints: array<Bytes>)
    requires cnt == ints.Length && cnt < |hashes| <= 2 * cnt && cnt == Width(|hashes|)
    modifies ints
    ensures ints[..] == Slots(keccak, hashes)
  {
    hide Pairs, Width;
    var count := |hashes|;
    var kept := 2 * cnt - count;
    ghost var up := Pairs(keccak, hashes[kept..]);
    for i := 0 to kept
      invariant forall m | 0 <= m < i :: ints[m] == hashes[m]
    {
      ints[i] := hashes[i];
    }
    var i, j := kept, kept;
    while j < cnt
      invariant kept <= j <= cnt && i == kept + 2 * (j - kept)
      invariant forall m | 0 <= m < kept :: ints[m] == hashes[m]
      invariant forall m | kept <= m < j :: ints[m] == up[m - kept]
    {
      PairAt(keccak, hashes[kept..], j - kept);
      ints[j] := keccak(hashes[i] + hashes[i + 1]);
      i, j := i + 2, j + 1;
    }
    assert i == count;
    assert ints[..] == hashes[..kept] + up;
  }

  lemma PairAt(keccak: Keccak, layer: seq<Bytes>, j: nat)
    requires |layer| % 2 == 0 && j < |layer| / 2
    ensures Pairs(keccak, layer)[j] == keccak(layer[2 * j] + layer[2 * j + 1])
  {
  }

  /** One reduction step in place: slot j is written only after slots 2j and 2j + 1 have been
      read, so every pair is read before it is overwritten. */
  method PairUp(keccak: Keccak, ints: array<Bytes>, n: nat)
    requires n <= ints.Length && n % 2 == 0
    modifies ints
    ensures ints[..n / 2] == Pairs(keccak, old(ints[..n]))
    ensures ints[n / 2..] == old(ints[n / 2..])
  {
    var i, j := 0, 0;
    while j < n / 2
      invariant 0 <= j <= n / 2 && i == 2 * j
      invariant forall m | 0 <= m < j :: ints[m] == Pairs(keccak, old(ints[..n]))[m]
      invariant ints[j..] == old(ints[j..])
    {
      assert ints[i] == old(ints[..n])[2 * j] && ints[i + 1] == old(ints[..n])[2 * j + 1] by {
        assert ints[j..][i - j] == old(ints[j..])[i - j];
        assert ints[j..][i + 1 - j] == old(ints[j..])[i + 1 - j];
      }
      ints[j] := keccak(ints[i] + ints[i + 1]);
      i, j := i + 2, j + 1;
      assert ints[j..] == old(ints[j - 1..])[1..];
    }
  }

  lemma TwoLeaves(keccak: Keccak, leaves: seq<Bytes>)
    requires |leaves| == 2
    ensures TreeRoot(keccak, leaves) == keccak(leaves[0] + leaves[1])
  {
    assert Width(2) == 1;
    assert Slots(keccak, leaves) == Pairs(keccak, leaves) by {
      assert leaves[0..] == leaves;
    }
  }

  // ------------------------------------------------------------------
  // The root commits to the leaves
  // ------------------------------------------------------------------

  /** No two of these byte strings hash alike. */
  ghost predicate NoClash(keccak: Keccak, inputs: set<Bytes>) {
    forall x, y | x in inputs && y in inputs && keccak(x) == keccak(y) :: x == y
  }

  /** What is hashed on the way from the slots to the root. */
  function RootInputs(keccak: Keccak, slots: seq<Bytes>): set<Bytes>
    requires Perfect(|slots|)
    decreases |slots|
  {
    if |slots| == 1 then {}
    else
      var h := |slots| / 2;
      var a, b := slots[..h], slots[h..];
      {Root(keccak, a) + Root(keccak, b)} + RootInputs(keccak, a) + RootInputs(keccak, b)
  }

  function PairInputs(layer: seq<Bytes>): set<Bytes>
    requires |layer| % 2 == 0
  {
    set j | 0 <= j < |layer| / 2 :: layer[2 * j] + layer[2 * j + 1]
  }

  /** Everything tree_hash hashes for a list of leaves. */
  function Inputs(keccak: Keccak, leaves: seq<Bytes>): set<Bytes> {
    if |leaves| < 2 then {}
    else PairInputs(leaves[2 * Width(|leaves|) - |leaves|..]) + RootInputs(keccak, Slots(keccak, leaves))
  }

  predicate AllDigests(hashes: seq<Bytes>) {
    forall i | 0 <= i < |hashes| :: |hashes[i]| == 32
  }

  lemma JoinInjective(a: Bytes, b: Bytes, c: Bytes, d: Bytes)
    requires |a| == |c| == 32 && a + b == c + d
    ensures a == c && b == d
  {
    assert a == (a + b)[..32] == c && b == (a + b)[32..] == (c + d)[32..] == d;
  }

  lemma {:induction false} RootLength(keccak: Keccak, slots: seq<Bytes>)
    requires Perfect(|slots|) && AllDigests(slots)
    ensures |Root(keccak, slots)| == 32
    decreases |slots|
  {
  }

  lemma {:induction false} RootCommits(keccak: Keccak, a: seq<Bytes>, b: seq<Bytes>)
    requires |a| == |b| && Perfect(|a|) && AllDigests(a) && AllDigests(b)
    requires NoClash(keccak, RootInputs(keccak, a) + RootInputs(keccak, b))
    requires Root(keccak, a) == Root(keccak, b)
    ensures a == b
    decreases |a|
  {
    hide NoClash, RootInputs;
    if |a| == 1 {
      assert a == [a[0]] && b == [b[0]];
    } else {
      hide Root, AllDigests, Perfect;
      var h := |a| / 2;
      HalfPerfect(|a|);
      HalvesAreDigests(a, h);
      HalvesAreDigests(b, h);
      HalvesEqual(keccak, a, b);
      RootCommits(keccak, a[..h], b[..h]);
      RootCommits(keccak, a[h..], b[h..]);
      SameHalves(a, b, h);
    }
  }

  lemma SameHalves(a: seq<Bytes>, b: seq<Bytes>, h: nat)
    requires |a| == |b| && h <= |a| && a[..h] == b[..h] && a[h..] == b[h..]
    ensures a == b
  {
    assert a == a[..h] + a[h..] && b == b[..h] + b[h..];
  }

  lemma HalfPerfect(n: nat)
    requires Perfect(n) && n != 1
    ensures n >= 2 && n % 2 == 0 && Perfect(n / 2)
  {
  }

  lemma HalvesAreDigests(a: seq<Bytes>, h: nat)
    requires h <= |a| && AllDigests(a)
    ensures AllDigests(a[..h]) && AllDigests(a[h..])
  {
  }

  lemma HalvesEqual(keccak: Keccak, a: seq<Bytes>, b: seq<Bytes>)
    requires |a| == |b| > 1 && Perfect(|a|) && AllDigests(a) && AllDigests(b)
    requires NoClash(keccak, RootInputs(keccak, a) + RootInputs(keccak, b))
    requires Root(keccak, a) == Root(keccak, b)
    ensures
      var h := |a| / 2;
      && Root(keccak, a[..h]) == Root(keccak, b[..h]) && Root(keccak, a[h..]) == Root(keccak, b[h..])
      && NoClash(keccak, RootInputs(keccak, a[..h]) + RootInputs(keccak, b[..h]))
      && NoClash(keccak, RootInputs(keccak, a[h..]) + RootInputs(keccak, b[h..]))
  {
    var h := |a| / 2;
    var a0, a1, b0, b1 := a[..h], a[h..], b[..h], b[h..];
    HalvesAreDigests(a, h);
    HalvesAreDigests(b, h);
    hide AllDigests;
    RootLength(keccak, a0);
    RootLength(keccak, b0);
    var ra0, ra1, rb0, rb1 := Root(keccak, a0), Root(keccak, a1), Root(keccak, b0), Root(keccak, b1);
    assert ra0 + ra1 in RootInputs(keccak, a) && rb0 + rb1 in RootInputs(keccak, b);
    JoinInjective(ra0, ra1, rb0, rb1);
  }

  lemma PairsCommit(keccak: Keccak, a: seq<Bytes>, b: seq<Bytes>)
    requires |a| == |b| && |a| % 2 == 0 && AllDigests(a) && AllDigests(b)
    requires NoClash(keccak, PairInputs(a) + PairInputs(b))
    requires Pairs(keccak, a) == Pairs(keccak, b)
    ensures a == b
  {
    forall i | 0 <= i < |a| ensures a[i] == b[i] {
      var j := i / 2;
      assert Pairs(keccak, a)[j] == Pairs(keccak, b)[j];
      assert a[2 * j] + a[2 * j + 1] in PairInputs(a) && b[2 * j] + b[2 * j + 1] in PairInputs(b);
      JoinInjective(a[2 * j], a[2 * j + 1], b[2 * j], b[2 * j + 1]);
    }
  }

  /** Two transaction lists of the same length with the same root are the same list, unless
      two of the strings hashed on the way collide. */
  lemma TreeCommits(keccak: Keccak, a: seq<Bytes>, b: seq<Bytes>)
    requires |a| == |b| && AllDigests(a) && AllDigests(b)
    requires NoClash(keccak, Inputs(keccak, a) + Inputs(keccak, b))
    requires TreeRoot(keccak, a) == TreeRoot(keccak, b)
    ensures a == b
  {
    hide NoClash, PairInputs, RootInputs, Root, Pairs;
    if |a| == 1 {
      assert a[0][..32] == a[0] && b[0][..32] == b[0];
      assert a == [a[0]] && b == [b[0]];
    } else if |a| >= 2 {
      var kept := 2 * Width(|a|) - |a|;
      var x, y := Slots(keccak, a), Slots(keccak, b);
      Fewer(keccak, Inputs(keccak, a) + Inputs(keccak, b), RootInputs(keccak, x) + RootInputs(keccak, y));
      SlotsAreDigests(keccak, a);
      SlotsAreDigests(keccak, b);
      RootCommits(keccak, x, y);
      var a0, a1, b0, b1 := a[..kept], a[kept..], b[..kept], b[kept..];
      assert a0 == x[..kept] && y[..kept] == b0;
      assert Pairs(keccak, a1) == x[kept..] && y[kept..] == Pairs(keccak, b1);
      Fewer(keccak, Inputs(keccak, a) + Inputs(keccak, b), PairInputs(a1) + PairInputs(b1));
      PairsCommit(keccak, a1, b1);
      SameHalves(a, b, kept);
    }
  }

  lemma Fewer(keccak: Keccak, s: set<Bytes>, t: set<Bytes>)
    requires NoClash(keccak, s) && t <= s
    ensures NoClash(keccak, t)
  {
  }

  lemma SlotsAreDigests(keccak: Keccak, leaves: seq<Bytes>)
    requires |leaves| >= 2 && AllDigests(leaves)
    ensures AllDigests(Slots(keccak, leaves))
  {
  }
}
