/** The bitcoin number and string encodings of utils/utils.go, with their readers. */
module Packing {
  import opened ByteStrings
  import opened Prelude

  // ------------------------------------------------------------------
  // Compact sizes
  // ------------------------------------------------------------------

  function VarIntBytes(n: nat): Bytes
    requires n < TWO_TO_THE_64
  {
    if n < 0xFD then [n]
    else if n <= 0xFFFF then [0xFD] + ToLE(n, 2)
    else if n <= 0xFFFF_FFFF then [0xFE] + ToLE(n, 4)
    else [0xFF] + ToLE(n, 8)
  }

  /** A number read from a position, and where it ends. */
  datatype Read = Read(value: nat, next: nat)

  /** The bytes of a fixed-size little-endian number. */
  function FixedAt(b: Bytes, pos: nat, size: nat): Option<Read> {
    if pos + size > |b| then None else Some(Read(FromLE(b[pos..pos + size]), pos + size))
  }

  function VarIntAt(b: Bytes, pos: nat): Option<Read> {
    if pos >= |b| then None
    else if b[pos] < 0xFD then Some(Read(b[pos], pos + 1))
    else FixedAt(b, pos + 1, if b[pos] == 0xFD then 2 else if b[pos] == 0xFE then 4 else 8)
  }

  lemma FixedReads(b: Bytes, pos: nat, n: nat, size: nat)
    requires At(b, pos, ToLE(n, size)) && n < Pow256(size)
    ensures FixedAt(b, pos, size) == Some(Read(n, pos + size))
  {
    LittleEndianRoundTrip(n, size);
  }

  /** A compact size is read back wherever it is written. */
  lemma VarIntReads(b: Bytes, pos: nat, n: nat)
    requires n < TWO_TO_THE_64 && At(b, pos, VarIntBytes(n))
    ensures VarIntAt(b, pos) == Some(Read(n, pos + |VarIntBytes(n)|))
  {
    hide At, FixedAt;
    Powers256();
    if n < 0xFD {
      AtByte(b, pos, n);
    } else {
      var mark, size := if n <= 0xFFFF then 0xFD else if n <= 0xFFFF_FFFF then 0xFE else 0xFF,
        if n <= 0xFFFF then 2 else if n <= 0xFFFF_FFFF then 4 else 8;
      AtConcat(b, pos, [mark], ToLE(n, size));
      AtByte(b, pos, mark);
      FixedReads(b, pos + 1, n, size);
    }
  }

  /** What a fixed-size number was read from. */
  lemma FixedIs(b: Bytes, pos: nat, size: nat)
    requires FixedAt(b, pos, size).Some?
    ensures
      var r := FixedAt(b, pos, size).value;
      r.value < Pow256(size) && r.next == pos + size <= |b| && At(b, pos, ToLE(r.value, size))
  {
    var s := b[pos..pos + size];
    FromLEBound(s);
    LittleEndianInverse(s);
  }

  /** What a compact size was read from is no shorter than what is written for it, and the
      same if it is as short. */
  lemma VarIntIs(b: Bytes, pos: nat)
    requires VarIntAt(b, pos).Some?
    ensures
      var r := VarIntAt(b, pos).value;
      && r.value < TWO_TO_THE_64 && pos + |VarIntBytes(r.value)| <= r.next <= |b|
      && (r.next == pos + |VarIntBytes(r.value)| ==> At(b, pos, VarIntBytes(r.value)))
  {
    hide At;
    Powers256();
    var mark := b[pos];
    ByteAt(b, pos, mark);
    if mark >= 0xFD {
      var size := if mark == 0xFD then 2 else if mark == 0xFE then 4 else 8;
      FixedIs(b, pos + 1, size);
      hide FixedAt;
      var n := VarIntAt(b, pos).value.value;
      AtConcat(b, pos, [mark], ToLE(n, size));
    }
  }

  // ------------------------------------------------------------------
  // Strings
  // ------------------------------------------------------------------

  function SerializeString(s: Bytes): Bytes {
    if |s| < 253 then [|s|] + s
    else if |s| < 0x10000 then [253] + ToLE(|s|, 2) + s
    else if |s| < 0x1_0000_0000 then [254] + ToLE(|s|, 4) + s
    else [255] + ToLE(|s|, 8) + s
  }

  /** A serialized string is its length as a compact size, then the string. */
  lemma StringIsVarString(s: Bytes)
    requires |s| < TWO_TO_THE_64
    ensures SerializeString(s) == VarIntBytes(|s|) + s
  {
  }

  // ------------------------------------------------------------------
  // Numbers pushed by a script
  // ------------------------------------------------------------------

  /** The bytes of a number: little-endian, the last one without the sign bit. */
  function NumberBytes(n: nat): (b: Bytes)
    ensures |b| >= 1 && b[|b| - 1] <= 0x7f
  {
    if n <= 0x7f then [n] else [n % 256] + NumberBytes(n / 256)
  }

  lemma {:induction false} NumberBytesValue(n: nat)
    ensures FromLE(NumberBytes(n)) == n
  {
    if n > 0x7f {
      NumberBytesValue(n / 256);
      assert NumberBytes(n)[1..] == NumberBytes(n / 256);
    }
  }

  /** Numbers below 2^(8k-1) take at most k bytes. */
  lemma {:induction false} NumberBytesFit(n: nat, k: nat)
    requires k >= 1 && 2 * n < Pow256(k)
    ensures |NumberBytes(n)| <= k
  {
    if n > 0x7f {
      assert k >= 2 by { assert Pow256(1) == 256; }
      NumberBytesFit(n / 256, k - 1);
    }
  }

  /** Numbers from 2^(8k-1) on take more than k bytes. */
  lemma {:induction false} NumberBytesNeed(n: nat, k: nat)
    requires k >= 1 && 2 * n >= Pow256(k)
    ensures |NumberBytes(n)| > k
  {
    assert Pow256(1) == 256;
    if k > 1 {
      BigEnough(n, k);
      NumberBytesNeed(n / 256, k - 1);
    }
  }

  lemma BigEnough(n: nat, k: nat)
    requires k > 1 && 2 * n >= Pow256(k)
    ensures n > 0x7f && 2 * (n / 256) >= Pow256(k - 1)
  {
    assert Pow256(k) == 256 * Pow256(k - 1) && Pow256(k - 1) == 256 * Pow256(k - 2);
    assert Pow256(k - 2) >= 1;
    assert 2 * n >= 256 * Pow256(k - 1);
  }

  /** No shorter little-endian string with a clear sign bit stands for the number, as BIP 34
      demands of the height, but for 0: it takes a byte where the empty string would do. */
  lemma {:induction false} NumberBytesMinimal(b: Bytes)
    requires b != [] ==> b[|b| - 1] <= 0x7f
    ensures |NumberBytes(FromLE(b))| <= |b| <==> b != []
  {
    if |b| > 1 {
      NumberBytesMinimal(b[1..]);
      assert FromLE(b) / 256 == FromLE(b[1..]);
    }
  }

  /** The number a script starts by pushing. */
  function PushedAt(b: Bytes, pos: nat): Option<Read> {
    if pos >= |b| then None
    else if 0x51 <= b[pos] <= 0x60 then Some(Read(b[pos] - 0x50, pos + 1))
    else FixedAt(b, pos + 1, b[pos])
  }

  /** Eight bytes are enough exactly below 2^63. */
  lemma NumberRoom(n: nat)
    ensures |NumberBytes(n)| <= 8 <==> n < TWO_TO_THE_63
  {
    Powers256();
    if n < TWO_TO_THE_63 { NumberBytesFit(n, 8); } else { NumberBytesNeed(n, 8); }
  }

  /** One to sixteen have their own opcodes; other numbers are pushed. */
  function NumberPush(n: nat): Bytes
    requires n < TWO_TO_THE_63
  {
    if 1 <= n <= 16 then [0x50 + n]
    else
      NumberRoom(n);
      [|NumberBytes(n)|] + NumberBytes(n)
  }

  lemma PushReads(b: Bytes, pos: nat, s: Bytes)
    requires |s| <= 8 && At(b, pos, [|s|] + s)
    ensures PushedAt(b, pos) == Some(Read(FromLE(s), pos + 1 + |s|))
  {
    hide At, FromLE;
    AtConcat(b, pos, [|s|], s);
    AtByte(b, pos, |s|);
    AtSlice(b, pos + 1, s);
  }

  lemma AtSlice(b: Bytes, pos: nat, s: Bytes)
    requires At(b, pos, s)
    ensures pos + |s| <= |b| && b[pos..pos + |s|] == s
  {
  }

  /** Every number below 2^63 is pushed in at most nine bytes and read back. */
  lemma NumberReads(b: Bytes, pos: nat, n: nat)
    requires n < TWO_TO_THE_63 && At(b, pos, NumberPush(n))
    ensures PushedAt(b, pos) == Some(Read(n, pos + |NumberPush(n)|)) && |NumberPush(n)| <= 9
  {
    hide At, FixedAt, PushedAt;
    NumberRoom(n);
    NumberBytesValue(n);
    hide NumberBytes;
    if 1 <= n <= 16 {
      AtByte(b, pos, 0x50 + n);
      SmallPush(b, pos, n);
    } else {
      PushReads(b, pos, NumberBytes(n));
    }
  }

  lemma SmallPush(b: Bytes, pos: nat, n: nat)
    requires 1 <= n <= 16 && pos < |b| && b[pos] == 0x50 + n
    ensures PushedAt(b, pos) == Some(Read(n, pos + 1))
  {
  }

  lemma PushIs(n: nat)
    requires n < TWO_TO_THE_64
    ensures n < TWO_TO_THE_63 ==>
              && |NumberBytes(n)| <= 8
              && NumberPush(n) == if 1 <= n <= 16 then [0x50 + n] else [|NumberBytes(n)|] + NumberBytes(n)
  {
    NumberRoom(n);
  }

  lemma NumberUnfold(n: nat)
    ensures n > 0x7f ==> NumberBytes(n) == [n % 256] + NumberBytes(n / 256)
    ensures n <= 0x7f ==> NumberBytes(n) == [n]
  {
  }

  /** SerializeNumber: the buffer has room for eight bytes; None is the index panic that a
      number from 2^63 on runs into. */
  method SerializeNumber(n0: nat) returns (r: Option<Bytes>)
    requires n0 < TWO_TO_THE_64
    ensures r == if n0 < TWO_TO_THE_63 then Some(NumberPush(n0)) else None
  {
    hide NumberBytes, NumberPush;
    NumberRoom(n0);
    PushIs(n0);
    if n0 >= 1 && n0 <= 16 {
      return Some([0x50 + n0]);
    }
    var buff := new byte[9](_ => 0);
    var fits, l, done := FillDigits(n0, buff);
    if !fits {
      return None;
    }
    buff[0] := l;
    assert buff[0..l + 1] == [l] + done;
    return Some(buff[0..l + 1]);
  }

  /** The loop: base-256 digits from place 1 on, until seven bits are left. Writing a ninth
      digit would be out of range. */
  method FillDigits(n0: nat, buff: array<byte>) returns (fits: bool, l: nat, ghost done: Bytes)
    requires buff.Length == 9
    modifies buff
    ensures fits <==> |NumberBytes(n0)| <= 8
    ensures fits ==>
            l == |NumberBytes(n0)| && done == NumberBytes(n0) && forall k | 1 <= k <= l :: buff[k] == done[k - 1]
  {
    hide NumberBytes;
    var n: nat := n0;
    l, done := 1, [];
    while n > 0x7f
      invariant 1 <= l <= 9 && |done| == l - 1
      invariant forall k | 1 <= k < l :: buff[k] == done[k - 1]
      invariant done + NumberBytes(n) == NumberBytes(n0)
      decreases n
    {
      NumberUnfold(n);
      if l >= 9 {
        return false, l, done;
      }
      buff[l] := n % 256;
      MoveDigit(done, n);
      done := done + [n % 256];
      l := l + 1;
      n := n / 256;
    }
    NumberUnfold(n);
    if l >= 9 {
      return false, l, done;
    }
    buff[l] := n;
    done := done + [n];
    fits := true;
  }

  lemma MoveDigit(done: Bytes, n: nat)
    requires n > 0x7f
    ensures done + NumberBytes(n) == (done + [n % 256]) + NumberBytes(n / 256)
  {
  }

  /** ReverseBytes: swap towards the middle, on a copy. */
  method ReverseBytes(b: Bytes) returns (r: Bytes)
    ensures r == Reversed(b)
  {
    var a := new byte[|b|](i requires 0 <= i < |b| => b[i]);
    var i, j := 0, |b| - 1;
    while i < j
      invariant 0 <= i && j == |b| - 1 - i && i <= j + 1 && a.Length == |b|
      invariant forall k | 0 <= k < i || j < k < |b| :: a[k] == b[|b| - 1 - k]
      invariant forall k | i <= k <= j :: a[k] == b[k]
    {
      a[i], a[j] := a[j], a[i];
      i, j := i + 1, j - 1;
    }
    r := a[..];
  }
}
