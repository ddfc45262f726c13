/** The text of a pending block (storage/block.go) and when the member that a payout moves is
    the member that was read. */
module BlockText {
  import opened Prelude
  import opened Ledger

  type int64 = n: int | -0x8000_0000_0000_0000 <= n < 0x8000_0000_0000_0000

  // ------------------------------------------------------------------
  // Fields
  // ------------------------------------------------------------------

  /** strings.Join with colons. */
  function Join(parts: seq<string>): string {
    if parts == [] then "" else if |parts| == 1 then parts[0] else parts[0] + ":" + Join(parts[1..])
  }

  /** strings.Split at colons. */
  function Split(s: string): (parts: seq<string>)
    ensures parts != []
  {
    if s == "" then [""]
    else
      var rest := Split(s[1..]);
      if s[0] == ':' then [""] + rest else [[s[0]] + rest[0]] + rest[1..]
  }

  lemma {:induction false} JoinSplit(s: string)
    ensures Join(Split(s)) == s
    ensures forall p | p in Split(s) :: ColonFree(p)
  {
    if s != "" {
      JoinSplit(s[1..]);
      var rest := Split(s[1..]);
      assert s == [s[0]] + s[1..];
      if s[0] == ':' {
        assert ([""] + rest)[1..] == rest;
      } else {
        var first := [s[0]] + rest[0];
        assert ([first] + rest[1..])[1..] == rest[1..];
        assert rest[0] in rest;
        if |rest| > 1 { assert first + ":" + Join(rest[1..]) == [s[0]] + (rest[0] + ":" + Join(rest[1..])); }
      }
    }
  }

  lemma {:induction false} SplitFirst(p: string, s: string)
    requires ColonFree(p)
    ensures Split(p + ":" + s) == [p] + Split(s)
  {
    var t := p + ":" + s;
    if p == "" {
      assert t[1..] == s;
    } else {
      assert t[0] == p[0] && t[1..] == p[1..] + ":" + s;
      SplitFirst(p[1..], s);
      assert p == [p[0]] + p[1..];
    }
  }

  lemma {:induction false} SplitOne(p: string)
    requires ColonFree(p)
    ensures Split(p) == [p]
  {
    if p != "" {
      SplitOne(p[1..]);
      assert p == [p[0]] + p[1..];
    }
  }

  lemma {:induction false} SplitJoin(parts: seq<string>)
    requires parts != [] && forall p | p in parts :: ColonFree(p)
    ensures Split(Join(parts)) == parts
  {
    if |parts| == 1 {
      SplitOne(parts[0]);
    } else {
      SplitJoin(parts[1..]);
      SplitFirst(parts[0], Join(parts[1..]));
    }
  }

  // ------------------------------------------------------------------
  // Numbers
  // ------------------------------------------------------------------

  predicate IsDigit(c: char) {
    '0' <= c <= '9'
  }

  function Digit(n: nat): char
    requires n < 10
  {
    '0' + n as char
  }

  /** strconv.FormatUint in base 10. */
  function FormatUint(n: nat): (s: string)
    ensures s != ""
  {
    if n < 10 then [Digit(n)] else FormatUint(n / 10) + [Digit(n % 10)]
  }

  /** strconv.FormatInt in base 10. */
  function FormatInt(n: int): string {
    if n >= 0 then FormatUint(n) else "-" + FormatUint(0 - n)
  }

  /** A number, not a number at all, or one that does not fit. */
  datatype Num = Value(n: nat) | Syntax | OutOfRange

  /** The loop of strconv.ParseUint: it stops at the first digit too many or wrong character,
      whichever comes first. */
  function ParseDigits(s: string, n: nat): Num {
    if s == "" then Value(n)
    else if !IsDigit(s[0]) then Syntax
    else
      var next := 10 * n + (s[0] - '0') as int;
      if next >= TWO_TO_THE_64 then OutOfRange else ParseDigits(s[1..], next)
  }

  function ParseUint(s: string): Num {
    if s == "" then Syntax else ParseDigits(s, 0)
  }

  /** strconv.ParseInt with its error ignored: 0 for a malformed number, the nearest int64 for
      one out of range. */
  function ParseInt(s: string): int64 {
    if s == "" then 0
    else
      var negative := s[0] == '-';
      var digits := if s[0] == '+' || negative then s[1..] else s;
      match ParseUint(digits)
      case Syntax => 0
      case OutOfRange => if negative then -TWO_TO_THE_63 else TWO_TO_THE_63 - 1
      case Value(n) =>
        if negative then (if n > TWO_TO_THE_63 then -TWO_TO_THE_63 else 0 - (n as int))
        else if n >= TWO_TO_THE_63 then TWO_TO_THE_63 - 1 else n
  }

  lemma {:induction false} ParseDigitsConcat(a: string, b: string, n: nat)
    ensures ParseDigits(a + b, n) == match ParseDigits(a, n) case Value(m) => ParseDigits(b, m) case other => other
  {
    if a == "" {
      assert a + b == b;
    } else if IsDigit(a[0]) {
      assert (a + b)[1..] == a[1..] + b;
      if 10 * n + (a[0] - '0') as int < TWO_TO_THE_64 {
        ParseDigitsConcat(a[1..], b, 10 * n + (a[0] - '0') as int);
      }
    }
  }

  lemma {:induction false} OnlyDigits(n: nat)
    ensures forall c | c in FormatUint(n) :: IsDigit(c)
  {
    if n >= 10 {
      OnlyDigits(n / 10);
    }
  }

  /** The number that decimal digits stand for. */
  function DecimalValue(s: string): int {
    if s == "" then 0 else 10 * DecimalValue(s[..|s| - 1]) + (s[|s| - 1] as int - '0' as int)
  }

  lemma {:induction false} FormatValue(n: nat)
    ensures DecimalValue(FormatUint(n)) == n
  {
    if n < 10 {
      assert FormatUint(n)[..0] == "";
    } else {
      FormatValue(n / 10);
      assert FormatUint(n)[..|FormatUint(n)| - 1] == FormatUint(n / 10);
    }
  }

  /** Different numbers are written differently. */
  lemma FormatIntInjective(m: int, n: int)
    ensures FormatInt(m) == FormatInt(n) <==> m == n
    ensures ColonFree(FormatInt(m))
  {
    var a: nat, b: nat := if m >= 0 then m else 0 - m, if n >= 0 then n else 0 - n;
    OnlyDigits(a);
    OnlyDigits(b);
    FormatValue(a);
    FormatValue(b);
    hide FormatUint, DecimalValue;
    assert IsDigit(FormatUint(a)[0]) && IsDigit(FormatUint(b)[0]);
    if m < 0 { assert FormatInt(m)[1..] == FormatUint(a); }
    if n < 0 { assert FormatInt(n)[1..] == FormatUint(b); }
  }

  lemma {:induction false} ParseFormat(n: nat)
    requires n < TWO_TO_THE_64
    ensures ParseUint(FormatUint(n)) == Value(n)
  {
    if n < 10 {
      OneDigit(n, 0);
    } else {
      ParseFormat(n / 10);
      ParseDigitsConcat(FormatUint(n / 10), [Digit(n % 10)], 0);
      OneDigit(n % 10, n / 10);
    }
  }

  lemma OneDigit(d: nat, n: nat)
    requires d < 10 && 10 * n + d < TWO_TO_THE_64
    ensures IsDigit(Digit(d)) && ParseDigits([Digit(d)], n) == Value(10 * n + d)
  {
    assert [Digit(d)][1..] == "";
  }

  /** What FormatInt writes is read back as the same number. */
  lemma ParseFormatInt(n: int64)
    ensures ParseInt(FormatInt(n)) == n
  {
    hide FormatUint, ParseUint;
    var m: nat := if n >= 0 then n else 0 - (n as int);
    ParseFormat(m);
    OnlyDigits(m);
    assert n < 0 ==> FormatInt(n)[1..] == FormatUint(m);
    assert IsDigit(FormatUint(m)[0]);
  }

  // ------------------------------------------------------------------
  // Pending blocks
  // ------------------------------------------------------------------

  function Fields(pb: Block): seq<string> {
    [pb.hash, pb.txHash, FormatUint(pb.height), pb.finder, FormatInt(pb.mark)]
  }

  /** PendingBlock.String. */
  function Text(pb: Block): string {
    Join(Fields(pb))
  }

  /** NewPendingBlockFromString. */
  function Parse(s: string): Option<Block> {
    var split := Split(s);
    if |split| < 3 then None
    else
      match ParseUint(split[2])
      case Value(height) =>
        ParsedFits(split[2], 0);
        Some(Block(split[0], split[1], height,
                   if |split| > 3 then split[3] else "",
                   if |split| > 4 then ParseInt(split[4]) else 0))
      case _ => None
  }

  lemma {:induction false} ParsedFits(s: string, n: nat)
    requires n < TWO_TO_THE_64
    ensures ParseDigits(s, n).Value? ==> ParseDigits(s, n).n < TWO_TO_THE_64
  {
    if s != "" && IsDigit(s[0]) && 10 * n + (s[0] - '0') as int < TWO_TO_THE_64 {
      ParsedFits(s[1..], 10 * n + (s[0] - '0') as int);
    }
  }

  /** Fields without colons, numbers that fit: height is a uint64, mark an int64. */
  predicate Plain(pb: Block) {
    && ColonFree(pb.hash) && ColonFree(pb.txHash) && ColonFree(pb.finder)
    && Fits(pb)
  }

  predicate Fits(pb: Block) {
    pb.height < TWO_TO_THE_64 && -TWO_TO_THE_63 <= pb.mark < TWO_TO_THE_63
  }

  /** What is read always has plain fields. */
  lemma ParsedIsPlain(s: string)
    requires Parse(s).Some?
    ensures Plain(Parse(s).value)
  {
    JoinSplit(s);
    var split := Split(s);
    ParsedFits(split[2], 0);
    hide Split, ParseUint, ParseInt;
    assert split[0] in split && split[1] in split;
    if |split| > 3 { assert split[3] in split; }
  }

  /** Only fields with colons change the number of fields. */
  lemma FieldsOfText(pb: Block)
    requires ColonFree(pb.hash) && ColonFree(pb.txHash) && ColonFree(pb.finder)
    ensures Split(Text(pb)) == Fields(pb)
  {
    OnlyDigits(pb.height);
    FormatIntInjective(pb.mark, 0);
    hide FormatUint, FormatInt, Join, Split;
    forall p | p in Fields(pb) ensures ColonFree(p) {
    }
    SplitJoin(Fields(pb));
  }

  /** A record whose fields have no colon is read back as it was written. */
  lemma RoundTrip(pb: Block)
    requires Plain(pb)
    ensures Parse(Text(pb)) == Some(pb)
  {
    FieldsOfText(pb);
    ParseFormat(pb.height);
    ParseFormatInt(pb.mark);
    hide FormatUint, FormatInt, Split, Text, ParseUint, ParseInt;
  }

  /** Text as the pool writes it: exactly five fields, the numbers in their shortest form. */
  predicate Canonical(s: string) {
    var split := Split(s);
    && |split| == 5
    && ParseUint(split[2]).Value? && split[2] == FormatUint(ParseUint(split[2]).n)
    && split[4] == FormatInt(ParseInt(split[4]))
  }

  /** A record prints back to the text it was read from exactly when that text is canonical;
      in particular no record of three or four fields does. */
  lemma PrintsBack(s: string)
    ensures Parse(s).Some? && Text(Parse(s).value) == s <==> Canonical(s)
  {
    hide FormatUint, FormatInt, ParseUint, ParseInt, Split, Join;
    JoinSplit(s);
    if Parse(s).Some? {
      var pb, split := Parse(s).value, Split(s);
      ParsedIsPlain(s);
      FieldsOfText(pb);
      if Text(pb) == s {
        assert split == Fields(pb);
      }
      if Canonical(s) {
        assert Fields(pb) == split;
      }
    }
  }

  /** The canonical texts are exactly the texts of records without colons. */
  lemma CanonicalIsWritten(s: string)
    ensures Canonical(s) <==> exists pb :: Plain(pb) && Text(pb) == s
  {
    hide FormatUint, FormatInt, ParseUint, ParseInt, Split, Text;
    PrintsBack(s);
    if Canonical(s) {
      ParsedIsPlain(s);
      assert Plain(Parse(s).value) && Text(Parse(s).value) == s;
    }
    if pb :| Plain(pb) && Text(pb) == s {
      RoundTrip(pb);
    }
  }

  lemma {:induction false} SplitLength(p: string, s: string)
    ensures |Split(p + ":" + s)| == |Split(p)| + |Split(s)|
  {
    var t := p + ":" + s;
    if p == "" {
      assert t[1..] == s;
    } else {
      assert t[0] == p[0] && t[1..] == p[1..] + ":" + s;
      SplitLength(p[1..], s);
    }
  }

  lemma {:induction false} ManyFields(p: string)
    ensures |Split(p)| == 1 <==> ColonFree(p)
  {
    if p != "" {
      ManyFields(p[1..]);
      assert p == [p[0]] + p[1..];
    }
  }

  lemma FieldCount(pb: Block)
    ensures |Split(Text(pb))| == |Split(pb.hash)| + |Split(pb.txHash)| + |Split(pb.finder)| + 2
  {
    OnlyDigits(pb.height);
    FormatIntInjective(pb.mark, 0);
    hide Split, FormatUint, FormatInt;
    var height, mark := FormatUint(pb.height), FormatInt(pb.mark);
    ManyFields(height);
    ManyFields(mark);
    var t3 := pb.finder + ":" + mark;
    var t2 := height + ":" + t3;
    var t1 := pb.txHash + ":" + t2;
    SplitLength(pb.finder, mark);
    SplitLength(height, t3);
    SplitLength(pb.txHash, t2);
    SplitLength(pb.hash, t1);
    TextIs(pb);
  }

  /** A record that was written is canonical exactly when its fields are plain. */
  lemma WrittenIsCanonical(pb: Block)
    ensures Canonical(Text(pb)) <==> Plain(pb)
  {
    if Canonical(Text(pb)) {
      FieldCount(pb);
      ManyFields(pb.hash);
      ManyFields(pb.txHash);
      ManyFields(pb.finder);
      PrintsBack(Text(pb));
      var back := Parse(Text(pb)).value;
      ParsedIsPlain(Text(pb));
      SameText(pb, back);
    }
    CanonicalIsWritten(Text(pb));
  }

  /** Without colons the text tells records apart. */
  lemma SameText(a: Block, b: Block)
    requires ColonFree(a.hash) && ColonFree(a.txHash) && ColonFree(a.finder)
    requires ColonFree(b.hash) && ColonFree(b.txHash) && ColonFree(b.finder)
    requires Text(a) == Text(b)
    ensures a == b
  {
    FieldsOfText(a);
    FieldsOfText(b);
    FormatIntInjective(a.height, b.height);
    FormatIntInjective(a.mark, b.mark);
    hide Text, FormatInt;
    assert Fields(a)[0] == Fields(b)[0] && Fields(a)[1] == Fields(b)[1] && Fields(a)[2] == Fields(b)[2];
    assert Fields(a)[3] == Fields(b)[3] && Fields(a)[4] == Fields(b)[4];
  }

  /** A block that the pool records, with hashes free of colons, can be moved later exactly when
      the finder's name has no colon either. */
  lemma RecordedIsCanonical(pb: Block)
    requires ColonFree(pb.hash) && ColonFree(pb.txHash) && Fits(pb)
    ensures Canonical(Text(pb)) <==> ColonFree(pb.finder)
  {
    hide Canonical, Text;
    WrittenIsCanonical(pb);
  }

  /** Of a finder whose name has a colon, the part before it is read. */
  lemma ColonFinderReads(pb: Block, first: string, rest: string)
    requires ColonFree(pb.hash) && ColonFree(pb.txHash) && Fits(pb)
    requires ColonFree(first) && pb.finder == first + ":" + rest
    ensures
      var mark := ParseInt(Split(rest + ":" + FormatInt(pb.mark))[0]);
      Parse(Text(pb)) == Some(Block(pb.hash, pb.txHash, pb.height, first, mark))
  {
    OnlyDigits(pb.height);
    ParseFormat(pb.height);
    TextIs(pb);
    hide FormatUint, FormatInt, Split, Text, ParseUint, ParseInt;
    var tail := rest + ":" + FormatInt(pb.mark);
    assert pb.finder + ":" + FormatInt(pb.mark) == first + ":" + tail;
    SplitFour(pb.hash, pb.txHash, FormatUint(pb.height), first, tail);
  }

  lemma SplitFour(a: string, b: string, c: string, d: string, tail: string)
    requires ColonFree(a) && ColonFree(b) && ColonFree(c) && ColonFree(d)
    ensures
      var split, last := Split(a + ":" + (b + ":" + (c + ":" + (d + ":" + tail)))), Split(tail);
      && |split| == 4 + |last| && split[4] == last[0]
      && split[0] == a && split[1] == b && split[2] == c && split[3] == d
  {
    hide Split;
    SplitFirst(d, tail);
    SplitFirst(c, d + ":" + tail);
    SplitFirst(b, c + ":" + (d + ":" + tail));
    SplitFirst(a, b + ":" + (c + ":" + (d + ":" + tail)));
  }

  lemma {:induction false} LastField(p: string, s: string)
    ensures Last(Split(p + ":" + s)) == Last(Split(s))
  {
    var t := p + ":" + s;
    if p == "" {
      assert t[1..] == s;
    } else {
      assert t[0] == p[0] && t[1..] == p[1..] + ":" + s;
      LastField(p[1..], s);
      SplitLength(p[1..], s);
    }
  }

  function Last(parts: seq<string>): string
    requires parts != []
  {
    parts[|parts| - 1]
  }

  /** The text of a record fixes its mark, whatever the other fields hold. */
  lemma TextFixesMark(a: Block, b: Block)
    requires Text(a) == Text(b)
    ensures a.mark == b.mark
  {
    MarkIsLast(a);
    MarkIsLast(b);
    FormatIntInjective(a.mark, b.mark);
  }

  lemma MarkIsLast(pb: Block)
    ensures Last(Split(Text(pb))) == FormatInt(pb.mark)
  {
    TextIs(pb);
    FormatIntInjective(pb.mark, 0);
    hide FormatUint, FormatInt, Split, Text;
    var mark := FormatInt(pb.mark);
    var t3 := pb.finder + ":" + mark;
    var t2 := FormatUint(pb.height) + ":" + t3;
    SplitOne(mark);
    LastField(pb.finder, mark);
    LastField(FormatUint(pb.height), t3);
    LastField(pb.txHash, t2);
    LastField(pb.hash, pb.txHash + ":" + t2);
  }

  lemma TextIs(pb: Block)
    ensures
      Text(pb)
      == pb.hash + ":" + (pb.txHash + ":" + (FormatUint(pb.height) + ":" + (pb.finder + ":" + FormatInt(pb.mark))))
  {
    hide FormatUint, FormatInt;
    var f4 := [FormatInt(pb.mark)];
    var f3 := [pb.finder] + f4;
    var f2 := [FormatUint(pb.height)] + f3;
    var f1 := [pb.txHash] + f2;
    assert Fields(pb) == [pb.hash] + f1;
    JoinCons(pb.hash, f1);
    JoinCons(pb.txHash, f2);
    JoinCons(FormatUint(pb.height), f3);
    JoinCons(pb.finder, f4);
  }

  lemma JoinCons(p: string, rest: seq<string>)
    requires rest != []
    ensures Join([p] + rest) == p + ":" + Join(rest)
  {
    assert ([p] + rest)[1..] == rest;
  }

  // ------------------------------------------------------------------
  // SMOVE
  // ------------------------------------------------------------------

  datatype Moved = Moved(source: set<string>, target: set<string>)

  function SMove(source: set<string>, target: set<string>, member: string): Moved {
    if member in source then Moved(source - {member}, target + {member}) else Moved(source, target)
  }

  /** The payout of a block that was read from a pending member moves exactly that member when
      it is canonical, and otherwise leaves it where it is. */
  lemma MovesWhatWasRead(pending: set<string>, settled: set<string>, member: string)
    requires member in pending && Parse(member).Some?
    ensures
      var after := SMove(pending, settled, Text(Parse(member).value));
      && (Canonical(member) ==> after == Moved(pending - {member}, settled + {member}))
      && (member !in after.source <==> Canonical(member))
  {
    hide Parse, Text, Canonical;
    PrintsBack(member);
  }
}
