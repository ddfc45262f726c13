/** Hexadecimal text as Go's encoding/hex and strings packages treat it. */
module Hex {
  import opened ByteStrings
  import opened Prelude

  /** hex.DecodeString accepts both cases. */
  function DigitValue(c: char): (v: Option<nat>)
    ensures v.Some? ==> v.value < 16
  {
    if '0' <= c <= '9' then Some((c - '0') as int)
    else if 'a' <= c <= 'f' then Some((c - 'a') as int + 10)
    else if 'A' <= c <= 'F' then Some((c - 'A') as int + 10)
    else None
  }

  function DigitOf(n: nat): char
    requires n < 16
  {
    if n < 10 then '0' + n as char else 'a' + (n - 10) as char
  }

  function Decode(s: string): Option<Bytes> {
    if s == "" then Some([])
    else if |s| == 1 then None
    else
      match (DigitValue(s[0]), DigitValue(s[1]), Decode(s[2..]))
      case (Some(h), Some(l), Some(rest)) => Some([16 * h + l] + rest)
      case _ => None
  }

  /** hex.EncodeToString. */
  function Encode(b: Bytes): string {
    if b == [] then "" else [DigitOf(b[0] / 16), DigitOf(b[0] % 16)] + Encode(b[1..])
  }

  /** ToLower on ASCII letters; no other character can make hex text. */
  function Lower(s: string): (t: string)
    ensures |t| == |s|
  {
    seq(|s|, i requires 0 <= i < |s| => if 'A' <= s[i] <= 'Z' then s[i] + ('a' - 'A') else s[i])
  }

  /** Lower case stands for the same bytes. */
  lemma {:induction false} LowerKeepsBytes(s: string)
    ensures Decode(Lower(s)) == Decode(s)
    decreases |s|
  {
    if |s| >= 2 {
      LowerDigit(s[0]);
      LowerDigit(s[1]);
      assert Lower(s)[2..] == Lower(s[2..]);
      LowerKeepsBytes(s[2..]);
      hide DigitValue;
    }
  }

  lemma LowerDigit(c: char)
    ensures DigitValue(Lower([c])[0]) == DigitValue(c)
  {
  }

  predicate IsLower(s: string) {
    forall i | 0 <= i < |s| :: !('A' <= s[i] <= 'Z')
  }

  lemma LowerIsLower(s: string)
    ensures IsLower(Lower(s))
  {
  }

  lemma DigitText(c: char)
    requires DigitValue(c).Some? && !('A' <= c <= 'Z')
    ensures DigitValue(c).value < 16 && DigitOf(DigitValue(c).value) == c
  {
  }

  /** Two hex digits and the byte they stand for. */
  lemma PairText(c: char, d: char)
    requires DigitValue(c).Some? && DigitValue(d).Some? && !('A' <= c <= 'Z') && !('A' <= d <= 'Z')
    ensures
      var n := 16 * DigitValue(c).value + DigitValue(d).value;
      n < 256 && DigitOf(n / 16) == c && DigitOf(n % 16) == d
  {
    DigitText(c);
    DigitText(d);
    hide DigitValue, DigitOf;
  }

  lemma PairBack(n: byte)
    ensures DigitValue(DigitOf(n / 16)) == Some(n / 16) && DigitValue(DigitOf(n % 16)) == Some(n % 16)
  {
  }

  lemma DecodeUnfold(s: string)
    requires |s| >= 2 && Decode(s).Some?
    ensures DigitValue(s[0]).Some? && DigitValue(s[1]).Some? && Decode(s[2..]).Some?
    ensures 16 * DigitValue(s[0]).value + DigitValue(s[1]).value < 256
    ensures Decode(s).value == [16 * DigitValue(s[0]).value + DigitValue(s[1]).value] + Decode(s[2..]).value
  {
    hide DigitValue;
  }

  lemma EncodeUnfold(n: byte, rest: Bytes)
    ensures Encode([n] + rest) == [DigitOf(n / 16), DigitOf(n % 16)] + Encode(rest)
  {
    assert ([n] + rest)[1..] == rest;
  }

  /** Lower-case hex text is determined by the bytes it stands for. */
  lemma {:induction false} LowerHexIsEncoded(s: string)
    requires IsLower(s) && Decode(s).Some?
    ensures s == Encode(Decode(s).value)
  {
    if |s| >= 2 {
      DecodeUnfold(s);
      PairText(s[0], s[1]);
      hide Decode, Encode, DigitValue, DigitOf;
      LowerHexIsEncoded(s[2..]);
      EncodeUnfold(16 * DigitValue(s[0]).value + DigitValue(s[1]).value, Decode(s[2..]).value);
      assert s == [s[0], s[1]] + s[2..];
    }
  }

  lemma {:induction false} DecodeEncode(b: Bytes)
    ensures Decode(Encode(b)) == Some(b)
  {
    if b != [] {
      PairBack(b[0]);
      hide DigitValue, DigitOf;
      DecodeEncode(b[1..]);
      assert Encode(b)[2..] == Encode(b[1..]);
      assert b == [b[0]] + b[1..];
    }
  }
}
