/** Bytes, little-endian numbers and hashes, shared by the wire-format modules. */
module ByteStrings {
  import opened Prelude

  type byte = n: int | 0 <= n < 256

  type Bytes = seq<byte>

  /** A uint64 holding n. */
  function Uint64(n: nat): (u: nat)
    ensures u < TWO_TO_THE_64
    ensures n < TWO_TO_THE_64 ==> u == n
  {
    n % TWO_TO_THE_64
  }

  /** An int64 holding n: Go's wrap-around of a signed sum. */
  function Int64(n: int): int {
    (n + TWO_TO_THE_63) % TWO_TO_THE_64 - TWO_TO_THE_63
  }

  type Digest = d: Bytes | |d| == 32 witness seq(32, _ => 0)

  /** Neighbours hashed together. */
  function Pairs<D>(h: Bytes -> D, layer: seq<Bytes>): (up: seq<D>)
    requires |layer| % 2 == 0
    ensures |up| == |layer| / 2
  {
    seq(|layer| / 2, i requires 0 <= i < |layer| / 2 => h(layer[2 * i] + layer[2 * i + 1]))
  }

  function Zeros(n: nat): Bytes {
    seq(n, _ => 0)
  }

  /** The number a little-endian byte string stands for. */
  function FromLE(b: Bytes): nat {
    if b == [] then 0 else b[0] + 256 * FromLE(b[1..])
  }

  /** n as k little-endian bytes, higher bytes dropped (binary.LittleEndian.PutUint). */
  function ToLE(n: nat, k: nat): (b: Bytes)
    ensures |b| == k
  {
    if k == 0 then [] else [n % 256] + ToLE(n / 256, k - 1)
  }

  function Pow256(k: nat): (p: nat)
    ensures p > 0
  {
    if k == 0 then 1 else 256 * Pow256(k - 1)
  }

  lemma Powers256()
    ensures Pow256(2) == 0x1_0000 && Pow256(4) == 0x1_0000_0000 && Pow256(8) == TWO_TO_THE_64
  {
    assert Pow256(3) == 0x100_0000;
    assert Pow256(7) == 0x100_0000_0000_0000;
  }

  lemma {:induction false} FromLEBound(b: Bytes)
    ensures FromLE(b) < Pow256(|b|)
  {
    if b != [] {
      FromLEBound(b[1..]);
    }
  }

  lemma {:induction false} LittleEndianRoundTrip(n: nat, k: nat)
    requires n < Pow256(k)
    ensures FromLE(ToLE(n, k)) == n
  {
    if k > 0 {
      LittleEndianRoundTrip(n / 256, k - 1);
      assert ToLE(n, k)[1..] == ToLE(n / 256, k - 1);
    }
  }

  lemma {:induction false} LittleEndianInverse(b: Bytes)
    ensures ToLE(FromLE(b), |b|) == b
  {
    if b != [] {
      LittleEndianInverse(b[1..]);
      assert FromLE(b) / 256 == FromLE(b[1..]);
      assert b == [b[0]] + b[1..];
    }
  }

  function Reversed(b: Bytes): (r: Bytes)
    ensures |r| == |b|
    ensures forall i | 0 <= i < |b| :: r[i] == b[|b| - 1 - i]
  {
    if b == [] then [] else Reversed(b[1..]) + [b[0]]
  }

  lemma ReversedTwice(b: Bytes)
    ensures Reversed(Reversed(b)) == b
  {
  }

  // ------------------------------------------------------------------
  // Parts of a byte string
  // ------------------------------------------------------------------

  /** s is written at a position. */
  predicate At(b: Bytes, pos: nat, s: Bytes) {
    pos + |s| <= |b| && b[pos..pos + |s|] == s
  }

  lemma AtConcat(b: Bytes, pos: nat, s: Bytes, t: Bytes)
    ensures At(b, pos, s + t) <==> At(b, pos, s) && At(b, pos + |s|, t)
  {
    if pos + |s| + |t| <= |b| {
      assert b[pos..pos + |s + t|] == b[pos..pos + |s|] + b[pos + |s|..pos + |s| + |t|];
      if At(b, pos, s + t) {
        assert b[pos..pos + |s|] == (s + t)[..|s|];
        assert b[pos + |s|..pos + |s| + |t|] == (s + t)[|s|..];
      }
    }
  }

  lemma AtInside(b: Bytes, pos: nat, s: Bytes)
    requires At(b, pos, s)
    ensures pos + |s| <= |b|
    ensures forall i | 0 <= i < |s| :: b[pos + i] == s[i]
  {
    forall i | 0 <= i < |s| ensures b[pos + i] == s[i] {
      assert b[pos..pos + |s|][i] == s[i];
    }
  }

  lemma AtByte(b: Bytes, pos: nat, c: byte)
    requires At(b, pos, [c])
    ensures pos < |b| && b[pos] == c
  {
    assert b[pos..pos + 1][0] == c;
  }

  lemma PieceAt(b: Bytes, pos: nat, n: nat) returns (s: Bytes)
    requires pos + n <= |b|
    ensures At(b, pos, s) && |s| == n
  {
    s := b[pos..pos + n];
  }

  lemma ByteAt(b: Bytes, pos: nat, c: byte)
    requires pos < |b| && b[pos] == c
    ensures At(b, pos, [c])
  {
    assert b[pos..pos + 1] == [c];
  }

  lemma AtWhole(b: Bytes)
    ensures At(b, 0, b)
  {
    assert b[0..|b|] == b;
  }
}
