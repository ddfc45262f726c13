/** Unsigned LEB128 as CryptoNote uses it (engine/cryptonote/blob.go): section 7.6 of
    DWARF 5. */
module Varint {
  import opened Prelude
  import opened ByteStrings

  datatype Error =
    | EndOfBlob | VarintOverflow
    | NoRoomForNonce | NotOneGenInput | NoVoutTag | UnknownVoutTag | NoRoomForKey
    | NoRoomForExtra | NoRctByte | NoRoomForHashes | TrailingBytes

  /** A Go call that returns a value, returns an error, or panics. */
  datatype Result<+T> = Ok(value: T) | Err(error: Error) | Panic {
    predicate IsFailure() { !Ok? }

    function PropagateFailure<U>(): Result<U>
      requires IsFailure()
    {
      if Err? then Err(error) else Panic
    }

    function Extract(): T
      requires !IsFailure()
    {
      value
    }
  }

  datatype Read = Read(value: nat, next: nat)

  // ------------------------------------------------------------------
  // The format
  // ------------------------------------------------------------------

  /** One varint: up to ten bytes, all but the last with the high bit set. */
  predicate IsRaw(s: Bytes) {
    1 <= |s| <= 10 && s[|s| - 1] < 128 && forall i | 0 <= i < |s| - 1 :: s[i] >= 128
  }

  /** The number written in 7-bit groups, least significant first. */
  function RawValue(s: Bytes): nat {
    if s == [] then 0 else s[0] % 128 + 128 * RawValue(s[1..])
  }

  /** The shortest encoding of a number. */
  function Encode(v: nat): Bytes {
    if v < 128 then [v] else [v % 128 + 128] + Encode(v / 128)
  }

  function Pow128(k: nat): nat {
    if k == 0 then 1 else 128 * Pow128(k - 1)
  }

  lemma Powers()
    ensures Pow128(9) == TWO_TO_THE_63 && Pow128(10) == 64 * TWO_TO_THE_64
  {
    assert Pow128(4) == 0x1000_0000;
    assert Pow128(8) == 0x100_0000_0000_0000;
  }

  lemma MultiplyOut(r: nat, p: nat, x: nat)
    ensures 128 * (r + p * x) == 128 * r + (128 * p) * x
  {
  }

  lemma {:induction false} RawValueConcat(a: Bytes, b: Bytes)
    ensures RawValue(a + b) == RawValue(a) + Pow128(|a|) * RawValue(b)
  {
    if a == [] {
      assert a + b == b;
    } else {
      assert (a + b)[1..] == a[1..] + b;
      RawValueConcat(a[1..], b);
      MultiplyOut(RawValue(a[1..]), Pow128(|a| - 1), RawValue(b));
    }
  }

  lemma {:induction false} RawValueBound(s: Bytes)
    ensures RawValue(s) < Pow128(|s|)
  {
    if s != [] {
      RawValueBound(s[1..]);
    }
  }

  lemma {:induction false} EncodeValue(v: nat)
    ensures RawValue(Encode(v)) == v
  {
    if v >= 128 {
      EncodeValue(v / 128);
      assert Encode(v)[1..] == Encode(v / 128);
    }
  }

  /** Every number below 128^k has an encoding of at most k bytes. */
  lemma {:induction false} EncodeIsRaw(v: nat, k: nat)
    requires 1 <= k <= 10 && v < Pow128(k)
    ensures |Encode(v)| <= k && IsRaw(Encode(v))
  {
    if v >= 128 {
      EncodeIsRaw(v / 128, k - 1);
      assert Encode(v) == [v % 128 + 128] + Encode(v / 128);
    }
  }

  /** Only the shortest encodings are written: a varint without a zero last group is the one
      Encode produces. */
  lemma {:induction false} OnlyEncoding(s: Bytes)
    requires IsRaw(s) && (|s| == 1 || s[|s| - 1] != 0)
    ensures s == Encode(RawValue(s))
  {
    if |s| > 1 {
      var rest := s[1..];
      OnlyEncoding(rest);
      NonZero(rest);
      assert RawValue(s) / 128 == RawValue(rest) && RawValue(s) % 128 == s[0] % 128;
      assert s == [s[0]] + rest;
    }
  }

  lemma {:induction false} NonZero(s: Bytes)
    requires IsRaw(s) && s[|s| - 1] != 0
    ensures RawValue(s) > 0
  {
    if |s| > 1 {
      NonZero(s[1..]);
    }
  }

  // ------------------------------------------------------------------
  // Reading
  // ------------------------------------------------------------------

  /** How many continuation bytes start at a position. */
  function Continued(b: Bytes, pos: nat): (n: nat)
    ensures pos <= |b| ==> pos + n <= |b|
    ensures pos >= |b| ==> n == 0
    ensures forall i | pos <= i < pos + n :: i < |b| && b[i] >= 128
    ensures pos + n < |b| ==> b[pos + n] < 128
    decreases |b| - pos
  {
    if pos >= |b| || b[pos] < 128 then 0 else 1 + Continued(b, pos + 1)
  }

  /** What readVarint answers at a position (a negative index panics). */
  function VarintAt(b: Bytes, pos: int): Result<Read> {
    if pos < 0 then Panic
    else
      var n := Continued(b, pos);
      if n >= 10 then Err(VarintOverflow)
      else if pos + n >= |b| then Err(EndOfBlob)
      else Ok(Read(Uint64(RawValue(b[pos..pos + n + 1])), pos + n + 1))
  }

  lemma {:induction false} ContinuedIs(b: Bytes, pos: nat, n: nat)
    requires pos + n <= |b|
    requires forall i | pos <= i < pos + n :: b[i] >= 128
    ensures Continued(b, pos) >= n
    ensures pos + n < |b| && b[pos + n] < 128 ==> Continued(b, pos) == n
    ensures pos + n == |b| ==> Continued(b, pos) == n
    decreases n
  {
    if n > 0 {
      ContinuedIs(b, pos + 1, n - 1);
    }
  }

  lemma {:induction false} PowerGrows(j: nat, k: nat)
    requires j <= k
    ensures 0 < Pow128(j) <= Pow128(k)
    decreases k
  {
    if j < k {
      PowerGrows(j, k - 1);
    } else if j > 0 {
      PowerGrows(j - 1, k - 1);
    }
  }

  lemma NoGroups(b: Bytes, pos: nat)
    ensures Pow128(0) == 1 && (pos <= |b| ==> RawValue(b[pos..pos]) == 0)
  {
  }

  lemma OneGroup(c: byte, k: nat)
    ensures RawValue([c]) == c % 128 && Pow128(k + 1) == 128 * Pow128(k)
  {
  }

  /** One more group, with at most nine before it. */
  lemma GroupAdded(b: Bytes, start: nat, pos: nat)
    requires start <= pos < |b| && pos - start <= 9
    ensures
      var k, val, sum := pos - start, RawValue(b[start..pos]), RawValue(b[start..pos + 1]);
      && sum == val + b[pos] % 128 * Pow128(k) && Pow128(k + 1) == 128 * Pow128(k)
      && (k < 9 ==> sum < TWO_TO_THE_63)
  {
    hide RawValue, Pow128;
    var k := pos - start;
    assert b[start..pos + 1] == b[start..pos] + [b[pos]];
    RawValueConcat(b[start..pos], [b[pos]]);
    OneGroup(b[pos], k);
    RawValueBound(b[start..pos + 1]);
    Powers();
    if k < 9 { PowerGrows(k + 1, 9); }
  }

  lemma StopsShort(b: Bytes, pos: nat)
    requires |b| - pos < 10 && forall i | pos <= i < |b| :: b[i] >= 128
    ensures VarintAt(b, pos) == Err(EndOfBlob)
  {
    if pos < |b| { ContinuedIs(b, pos, |b| - pos); }
  }

  lemma Overflows(b: Bytes, pos: nat)
    requires pos + 10 <= |b| && forall i | pos <= i < pos + 10 :: b[i] >= 128
    ensures VarintAt(b, pos) == Err(VarintOverflow)
  {
    ContinuedIs(b, pos, 10);
  }

  lemma StopsAt(b: Bytes, pos: nat, n: nat)
    requires n < 10 && pos + n < |b| && b[pos + n] < 128 && forall i | pos <= i < pos + n :: b[i] >= 128
    ensures VarintAt(b, pos) == Ok(Read(Uint64(RawValue(b[pos..pos + n + 1])), pos + n + 1))
  {
    hide RawValue, Uint64;
    ContinuedIs(b, pos, n);
  }

  /** readVarint: OR in seven bits per byte. The bits are disjoint, so OR is addition; what
      is shifted past bit 63 is lost. */
  method ReadVarint(b: Bytes, pos0: int) returns (r: Result<Read>)
    ensures r == VarintAt(b, pos0)
  {
    if pos0 < 0 {
      return Panic;
    }
    hide RawValue, Pow128, Uint64, VarintAt;
    var pos: nat, val: nat, shift: nat, weight: nat := pos0, 0, 0, 1;
    NoGroups(b, pos0);
    while true
      invariant shift == 7 * (pos - pos0) && 0 <= shift <= 63 && pos0 <= pos && (pos <= |b| || pos == pos0)
      invariant weight == Pow128(pos - pos0)
      invariant forall i | pos0 <= i < pos :: b[i] >= 128
      invariant pos <= |b| ==> val == RawValue(b[pos0..pos])
      decreases 63 - shift
    {
      if pos >= |b| {
        StopsShort(b, pos0);
        return Err(EndOfBlob);
      }
      var c := b[pos];
      GroupAdded(b, pos0, pos);
      val := Uint64(val + c % 128 * weight);
      pos := pos + 1;
      if c < 128 {
        StopsAt(b, pos0, pos - 1 - pos0);
        return Ok(Read(val, pos));
      }
      shift := shift + 7;
      weight := 128 * weight;
      if shift > 63 {
        Overflows(b, pos0);
        return Err(VarintOverflow);
      }
    }
  }

  /** appendVarint. */
  method AppendVarint(dst: Bytes, v0: nat) returns (out: Bytes)
    ensures out == dst + Encode(v0)
  {
    out := dst;
    var v := v0;
    while v >= 0x80
      invariant dst + Encode(v0) == out + Encode(v)
    {
      assert out + Encode(v) == out + [v % 128 + 128] + Encode(v / 128);
      out := out + [v % 128 + 128];
      v := v / 128;
    }
    out := out + [v];
  }

  /** readVarint finds any varint of the blob, and stops right behind it. */
  lemma ReadsAt(b: Bytes, pos: nat, next: nat)
    requires pos <= next <= |b| && IsRaw(b[pos..next])
    ensures VarintAt(b, pos) == Ok(Read(Uint64(RawValue(b[pos..next])), next))
  {
    hide RawValue, Uint64, VarintAt;
    var raw := b[pos..next];
    forall i | pos <= i < next - 1 ensures b[i] >= 128 {
      assert b[i] == raw[i - pos];
    }
    assert b[next - 1] == raw[|raw| - 1];
    StopsAt(b, pos, next - 1 - pos);
  }

  lemma ReadsRaw(before: Bytes, raw: Bytes, after: Bytes)
    requires IsRaw(raw)
    ensures VarintAt(before + raw + after, |before|) == Ok(Read(Uint64(RawValue(raw)), |before| + |raw|))
  {
    hide VarintAt, RawValue, IsRaw;
    var b := before + raw + after;
    assert b[|before|..|before| + |raw|] == raw;
    ReadsAt(b, |before|, |before| + |raw|);
  }

  /** readVarint undoes appendVarint for every uint64, whatever surrounds it. */
  lemma RoundTrip(before: Bytes, v: nat, after: Bytes)
    requires v < TWO_TO_THE_64
    ensures |Encode(v)| <= 10
    ensures VarintAt(before + Encode(v) + after, |before|) == Ok(Read(v, |before| + |Encode(v)|))
  {
    hide VarintAt, Pow128, RawValue, IsRaw;
    Powers();
    EncodeValue(v);
    EncodeIsRaw(v, 10);
    ReadsRaw(before, Encode(v), after);
  }

  /** What was read is one varint of the blob; nothing else makes readVarint succeed. */
  lemma ReadIsRaw(b: Bytes, pos: nat)
    requires VarintAt(b, pos).Ok?
    ensures
      var r := VarintAt(b, pos).value;
      pos < r.next <= |b| && IsRaw(b[pos..r.next]) && r.value == Uint64(RawValue(b[pos..r.next]))
  {
  }

  /** readVarint looks at nothing but the bytes of the varint it returns. */
  lemma ReadLocal(a: Bytes, b: Bytes, pos: nat)
    requires |a| == |b| && VarintAt(a, pos).Ok?
    requires a[pos..VarintAt(a, pos).value.next] == b[pos..VarintAt(a, pos).value.next]
    ensures VarintAt(b, pos) == VarintAt(a, pos)
  {
    var next := VarintAt(a, pos).value.next;
    ReadIsRaw(a, pos);
    ReadsAt(b, pos, next);
  }
}
