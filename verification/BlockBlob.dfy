/** CryptoNote block blobs (engine/cryptonote/blob.go): the parser against the block grammar,
    and the hashing blob against the nonce. */
module BlockBlob {
  import opened Prelude
  import opened ByteStrings
  import opened Varint
  import opened TreeHashing

  /** parsedBlock, without the blob itself; txCount is the number of hashes. */
  datatype Spans = Spans(nonceOffset: nat, headerEnd: nat, minerTxEnd: nat, minerTxVer: nat, txHashes: seq<Bytes>)

  // ------------------------------------------------------------------
  // The grammar
  // ------------------------------------------------------------------

  datatype Output = Output(amount: Bytes, tag: byte, key: Bytes)

  /** A block as bytes: every number is kept in the form in which it was written. */
  datatype RawBlock = RawBlock(
    major: Bytes, minor: Bytes, timestamp: Bytes, prev: Bytes, nonce: Bytes,
    version: Bytes, unlock: Bytes, vin: Bytes, height: Bytes, vout: Bytes, outputs: seq<Output>,
    extraLen: Bytes, extra: Bytes, rct: Bytes,
    txCount: Bytes, txs: seq<Bytes>)

  /** The uint64 a varint is read as. */
  function Number(raw: Bytes): nat {
    Uint64(RawValue(raw))
  }

  function PrintHeader(r: RawBlock): Bytes {
    r.major + r.minor + r.timestamp + r.prev + r.nonce
  }

  function PrintOutput(o: Output): Bytes {
    o.amount + [o.tag] + o.key
  }

  function PrintOutputs(os: seq<Output>): Bytes {
    if os == [] then [] else PrintOutput(os[0]) + PrintOutputs(os[1..])
  }

  /** The miner transaction up to and including the length of its extra field. */
  function PrintPrefix(r: RawBlock): Bytes {
    r.version + r.unlock + r.vin + [0xff] + r.height + r.vout + PrintOutputs(r.outputs) + r.extraLen
  }

  function PrintTxs(txs: seq<Bytes>): Bytes {
    if txs == [] then [] else txs[0] + PrintTxs(txs[1..])
  }

  function PrintTail(r: RawBlock): Bytes {
    r.txCount + PrintTxs(r.txs)
  }

  function Print(r: RawBlock): Bytes {
    PrintHeader(r) + PrintPrefix(r) + (r.extra + r.rct) + PrintTail(r)
  }

  predicate HeaderOk(r: RawBlock) {
    IsRaw(r.major) && IsRaw(r.minor) && IsRaw(r.timestamp) && |r.prev| == 32 && |r.nonce| == 4
  }

  predicate OutputOk(o: Output) {
    IsRaw(o.amount) && ((o.tag == 2 && |o.key| == 32) || (o.tag == 3 && |o.key| == 33))
  }

  predicate OutputsOk(os: seq<Output>) {
    forall i | 0 <= i < |os| :: OutputOk(os[i])
  }

  predicate PrefixOk(r: RawBlock) {
    && IsRaw(r.version) && IsRaw(r.unlock) && IsRaw(r.vin) && IsRaw(r.height) && IsRaw(r.vout) && IsRaw(r.extraLen)
    && Number(r.vin) == 1 && Number(r.vout) == |r.outputs| && OutputsOk(r.outputs)
  }

  predicate TailOk(r: RawBlock) {
    IsRaw(r.txCount) && Number(r.txCount) == |r.txs| && AllDigests(r.txs)
  }

  predicate WellFormed(r: RawBlock) {
    && HeaderOk(r) && PrefixOk(r) && TailOk(r)
    && Number(r.extraLen) == |r.extra|
    && r.rct == if Number(r.version) >= 2 then [0] else []
  }

  /** Where the parts of a block lie. */
  function SpansOf(r: RawBlock): Spans
    requires HeaderOk(r)
  {
    var headerEnd := |PrintHeader(r)|;
    Spans(headerEnd - 4, headerEnd, headerEnd + |PrintPrefix(r)| + |r.extra| + |r.rct|, Number(r.version), r.txs)
  }

  // ------------------------------------------------------------------
  // The parser
  // ------------------------------------------------------------------

  function SkipVarints(b: Bytes, pos: nat, n: nat): Result<nat>
    decreases n
  {
    if n == 0 then Ok(pos)
    else
      var r :- VarintAt(b, pos);
      SkipVarints(b, r.next, n - 1)
  }

  /** Where the header ends; its last four bytes are the nonce. */
  function HeaderEnd(b: Bytes): Result<nat> {
    var pos :- SkipVarints(b, 0, 3);
    if pos + 36 > |b| then Err(NoRoomForNonce) else Ok(pos + 36)
  }

  function OutputEnd(b: Bytes, pos: nat): Result<nat> {
    var r :- VarintAt(b, pos);
    if r.next >= |b| then Err(NoVoutTag)
    else if b[r.next] != 2 && b[r.next] != 3 then Err(UnknownVoutTag)
    else
      var end := r.next + if b[r.next] == 2 then 33 else 34;
      if end > |b| then Err(NoRoomForKey) else Ok(end)
  }

  function OutputsEnd(b: Bytes, pos: nat, n: nat): Result<nat>
    decreases n
  {
    if n == 0 then Ok(pos)
    else
      var q :- OutputEnd(b, pos);
      OutputsEnd(b, q, n - 1)
  }

  /** The miner transaction's version, where its extra field starts, and its declared length. */
  datatype Prefix = Prefix(version: nat, extraAt: nat, extraLen: nat)

  function PrefixAt(b: Bytes, pos: nat): Result<Prefix> {
    var version :- VarintAt(b, pos);
    var unlock :- VarintAt(b, version.next);
    var vin :- VarintAt(b, unlock.next);
    if vin.value != 1 || vin.next >= |b| || b[vin.next] != 0xff then Err(NotOneGenInput)
    else
      var height :- VarintAt(b, vin.next + 1);
      var vout :- VarintAt(b, height.next);
      var end :- OutputsEnd(b, vout.next, vout.value);
      var extra :- VarintAt(b, end);
      Ok(Prefix(version.value, extra.next, extra.value))
  }

  /** Where the miner transaction ends: `pos += int(extraLen)`, then the RCT byte of a v2
      transaction. The sum is a 64-bit one, so a huge length can lead backwards. */
  function MinerTxEnd(b: Bytes, x: Prefix): Result<int> {
    var pos := Int64(x.extraAt + x.extraLen);
    if pos > |b| then Err(NoRoomForExtra)
    else if x.version < 2 then Ok(pos)
    else if pos < 0 then Panic
    else if pos >= |b| || b[pos] != 0 then Err(NoRctByte)
    else Ok(pos + 1)
  }

  function HashesAt(b: Bytes, pos: nat, n: nat): seq<Bytes>
    requires pos + 32 * n <= |b|
  {
    seq(n, i requires 0 <= i < n => b[pos + 32 * i..pos + 32 * i + 32])
  }

  function TxHashes(b: Bytes, pos: int): Result<seq<Bytes>> {
    var count :- VarintAt(b, pos);
    var end := count.next + 32 * count.value;
    if end > |b| then Err(NoRoomForHashes)
    else if end < |b| then Err(TrailingBytes)
    else Ok(HashesAt(b, count.next, count.value))
  }

  function Parse(b: Bytes): Result<Spans> {
    var headerEnd :- HeaderEnd(b);
    var x :- PrefixAt(b, headerEnd);
    var end :- MinerTxEnd(b, x);
    var txs :- TxHashes(b, end);
    Ok(Spans(headerEnd - 4, headerEnd, end, x.version, txs))
  }

  /** parseBlockBlob. */
  method ParseBlockBlob(blob: Bytes) returns (r: Result<Spans>)
    ensures r == Parse(blob)
  {
    hide VarintAt, OutputsEnd, PrefixAt, TxHashes, Int64;
    var pos: nat := 0;
    for i := 0 to 3
      invariant SkipVarints(blob, 0, 3) == SkipVarints(blob, pos, 3 - i)
    {
      var v :- ReadVarint(blob, pos);
      pos := v.next;
    }
    if pos + 36 > |blob| {
      return Err(NoRoomForNonce);
    }
    pos := pos + 32;
    var nonceOffset := pos;
    pos := pos + 4;
    var headerEnd := pos;
    var x :- ParsePrefix(blob, pos);
    var end: int := Int64(x.extraAt + x.extraLen);
    if end > |blob| {
      return Err(NoRoomForExtra);
    }
    if x.version >= 2 {
      if end < 0 {
        return Panic; // index out of range
      }
      if end >= |blob| || blob[end] != 0x00 {
        return Err(NoRctByte);
      }
      end := end + 1;
    }
    var txHashes :- ParseTxHashes(blob, end);
    assert end >= 0 by { TxHashesAhead(blob, end); }
    return Ok(Spans(nonceOffset, headerEnd, end, x.version, txHashes));
  }

  lemma TxHashesAhead(b: Bytes, pos: int)
    requires TxHashes(b, pos).Ok?
    ensures pos >= 0
  {
  }

  method ParsePrefix(blob: Bytes, pos0: nat) returns (r: Result<Prefix>)
    ensures r == PrefixAt(blob, pos0)
  {
    hide VarintAt, OutputEnd;
    var version :- ReadVarint(blob, pos0);
    var unlock :- ReadVarint(blob, version.next);
    var vin :- ReadVarint(blob, unlock.next);
    if vin.value != 1 || vin.next >= |blob| || blob[vin.next] != 0xff {
      return Err(NotOneGenInput);
    }
    var height :- ReadVarint(blob, vin.next + 1);
    var vout :- ReadVarint(blob, height.next);
    var pos := vout.next;
    for i := 0 to vout.value
      invariant OutputsEnd(blob, vout.next, vout.value) == OutputsEnd(blob, pos, vout.value - i)
    {
      pos :- ParseOutput(blob, pos);
    }
    var extra :- ReadVarint(blob, pos);
    return Ok(Prefix(version.value, extra.next, extra.value));
  }

  method ParseOutput(blob: Bytes, pos0: nat) returns (r: Result<nat>)
    ensures r == OutputEnd(blob, pos0)
  {
    hide VarintAt;
    var amount :- ReadVarint(blob, pos0);
    var pos := amount.next;
    if pos >= |blob| {
      return Err(NoVoutTag);
    }
    var tag := blob[pos];
    pos := pos + 1;
    if tag == 0x02 {
      pos := pos + 32;
    } else if tag == 0x03 {
      pos := pos + 33;
    } else {
      return Err(UnknownVoutTag);
    }
    if pos > |blob| {
      return Err(NoRoomForKey);
    }
    return Ok(pos);
  }

  method ParseTxHashes(blob: Bytes, pos0: int) returns (r: Result<seq<Bytes>>)
    ensures r == TxHashes(blob, pos0)
  {
    hide VarintAt;
    var count :- ReadVarint(blob, pos0);
    var txHashes, pos := [], count.next;
    for i := 0 to count.value
      invariant pos == count.next + 32 * i && (i > 0 ==> pos <= |blob|)
      invariant |txHashes| == i && forall j | 0 <= j < i ::
                txHashes[j] == blob[count.next + 32 * j..count.next + 32 * j + 32]
    {
      if pos + 32 > |blob| {
        return Err(NoRoomForHashes);
      }
      txHashes := txHashes + [blob[pos..pos + 32]];
      pos := pos + 32;
    }
    if pos != |blob| {
      if pos > |blob| { VarintInside(blob, pos0); }
      return Err(TrailingBytes);
    }
    assert txHashes == HashesAt(blob, count.next, count.value);
    return Ok(txHashes);
  }

  lemma VarintInside(b: Bytes, pos: int)
    requires VarintAt(b, pos).Ok?
    ensures VarintAt(b, pos).value.next <= |b|
  {
  }

  // ------------------------------------------------------------------
  // Parsing undoes printing
  // ------------------------------------------------------------------

  lemma ReadsNumber(b: Bytes, pos: nat, raw: Bytes)
    requires At(b, pos, raw) && IsRaw(raw)
    ensures VarintAt(b, pos) == Ok(Read(Number(raw), pos + |raw|))
  {
    hide RawValue;
    ReadsAt(b, pos, pos + |raw|);
  }

  lemma HeaderParses(b: Bytes, r: RawBlock)
    requires HeaderOk(r) && At(b, 0, PrintHeader(r))
    ensures HeaderEnd(b) == Ok(|PrintHeader(r)|)
  {
    hide VarintAt, IsRaw, At;
    var s1, s2, s3 := r.major + r.minor, r.major + r.minor + r.timestamp, r.major + r.minor + r.timestamp + r.prev;
    AtConcat(b, 0, s3, r.nonce);
    AtConcat(b, 0, s2, r.prev);
    AtConcat(b, 0, s1, r.timestamp);
    AtConcat(b, 0, r.major, r.minor);
    ReadsNumber(b, 0, r.major);
    ReadsNumber(b, |r.major|, r.minor);
    ReadsNumber(b, |s1|, r.timestamp);
    AtInside(b, |s3|, r.nonce);
    assert SkipVarints(b, |s2|, 0) == Ok(|s2|);
    assert SkipVarints(b, |s1|, 1) == Ok(|s2|);
    assert SkipVarints(b, |r.major|, 2) == Ok(|s2|);
  }

  lemma OutputParses(b: Bytes, pos: nat, o: Output)
    requires OutputOk(o) && At(b, pos, PrintOutput(o))
    ensures OutputEnd(b, pos) == Ok(pos + |PrintOutput(o)|)
  {
    hide VarintAt, IsRaw, At;
    AtConcat(b, pos, o.amount + [o.tag], o.key);
    AtConcat(b, pos, o.amount, [o.tag]);
    ReadsNumber(b, pos, o.amount);
    AtByte(b, pos + |o.amount|, o.tag);
    AtInside(b, pos + |o.amount| + 1, o.key);
  }

  lemma {:induction false} OutputsParse(b: Bytes, pos: nat, os: seq<Output>)
    requires OutputsOk(os) && At(b, pos, PrintOutputs(os))
    ensures OutputsEnd(b, pos, |os|) == Ok(pos + |PrintOutputs(os)|)
    decreases |os|
  {
    hide At, OutputEnd, PrintOutput, OutputOk, OutputsOk, PrintOutputs, OutputsEnd;
    if os == [] {
      OutputsNone(b, pos);
    } else {
      OutputsUnfold(b, pos, os);
      AtConcat(b, pos, PrintOutput(os[0]), PrintOutputs(os[1..]));
      OutputParses(b, pos, os[0]);
      OutputsParse(b, pos + |PrintOutput(os[0])|, os[1..]);
    }
  }

  lemma OutputsNone(b: Bytes, pos: nat)
    ensures PrintOutputs([]) == [] && OutputsEnd(b, pos, 0) == Ok(pos)
  {
  }

  lemma OutputsUnfold(b: Bytes, pos: nat, os: seq<Output>)
    requires os != [] && OutputsOk(os)
    ensures OutputOk(os[0]) && OutputsOk(os[1..])
    ensures PrintOutputs(os) == PrintOutput(os[0]) + PrintOutputs(os[1..])
    ensures OutputEnd(b, pos).Ok? ==> OutputsEnd(b, pos, |os|) == OutputsEnd(b, OutputEnd(b, pos).value, |os| - 1)
  {
    hide OutputEnd, PrintOutput, OutputOk;
  }

  lemma PrefixParses(b: Bytes, pos: nat, r: RawBlock)
    requires PrefixOk(r) && At(b, pos, PrintPrefix(r))
    ensures PrefixAt(b, pos) == Ok(Prefix(Number(r.version), pos + |PrintPrefix(r)|, Number(r.extraLen)))
  {
    hide VarintAt, IsRaw, At, Number, OutputsEnd, PrintOutputs, OutputsOk;
    var s1 := r.version + r.unlock;
    var s2 := s1 + r.vin;
    var s3 := s2 + [0xff];
    var s4 := s3 + r.height;
    var s5 := s4 + r.vout;
    var s6 := s5 + PrintOutputs(r.outputs);
    AtConcat(b, pos, s6, r.extraLen);
    AtConcat(b, pos, s5, PrintOutputs(r.outputs));
    AtConcat(b, pos, s4, r.vout);
    AtConcat(b, pos, s3, r.height);
    AtConcat(b, pos, s2, [0xff]);
    AtConcat(b, pos, s1, r.vin);
    AtConcat(b, pos, r.version, r.unlock);
    ReadsNumber(b, pos, r.version);
    ReadsNumber(b, pos + |r.version|, r.unlock);
    ReadsNumber(b, pos + |s1|, r.vin);
    AtByte(b, pos + |s2|, 0xff);
    ReadsNumber(b, pos + |s3|, r.height);
    ReadsNumber(b, pos + |s4|, r.vout);
    OutputsParse(b, pos + |s5|, r.outputs);
    ReadsNumber(b, pos + |s6|, r.extraLen);
  }

  lemma {:induction false} TxsParse(b: Bytes, pos: nat, txs: seq<Bytes>)
    requires AllDigests(txs)
    ensures |PrintTxs(txs)| == 32 * |txs|
    ensures At(b, pos, PrintTxs(txs)) <==> pos + 32 * |txs| <= |b| && HashesAt(b, pos, |txs|) == txs
    decreases |txs|
  {
    if txs != [] {
      var rest := txs[1..];
      TxsParse(b, pos + 32, rest);
      AtConcat(b, pos, txs[0], PrintTxs(rest));
      if pos + 32 * |txs| <= |b| {
        HashesFirst(b, pos, |txs|);
        assert txs == [txs[0]] + rest;
      }
    }
  }

  lemma HashesFirst(b: Bytes, pos: nat, n: nat)
    requires n > 0 && pos + 32 * n <= |b|
    ensures HashesAt(b, pos, n) == [b[pos..pos + 32]] + HashesAt(b, pos + 32, n - 1)
  {
  }

  lemma TailParses(b: Bytes, pos: nat, r: RawBlock)
    requires TailOk(r) && At(b, pos, PrintTail(r)) && |b| == pos + |PrintTail(r)|
    ensures TxHashes(b, pos) == Ok(r.txs)
  {
    hide VarintAt, IsRaw, At, Number, PrintTxs;
    AtConcat(b, pos, r.txCount, PrintTxs(r.txs));
    ReadsNumber(b, pos, r.txCount);
    TxsParse(b, pos + |r.txCount|, r.txs);
  }

  lemma SmallInt64(n: nat)
    requires n < TWO_TO_THE_63
    ensures Int64(n) == n
  {
  }

  /** Every well-formed block whose length fits an int is parsed back: nonce offset, miner
      transaction span, version and transaction hashes, with the whole blob consumed. */
  lemma ParsesPrinted(r: RawBlock)
    requires WellFormed(r) && |Print(r)| < TWO_TO_THE_63
    ensures Parse(Print(r)) == Ok(SpansOf(r))
  {
    hide HeaderOk, PrefixOk, TailOk, PrintHeader, PrintPrefix, PrintTail, Number, HeaderEnd, PrefixAt;
    hide TxHashes, Int64, At;
    var b, h, p := Print(r), PrintHeader(r), PrintPrefix(r);
    var body := r.extra + r.rct;
    AtWhole(b);
    AtConcat(b, 0, h + p + body, PrintTail(r));
    AtConcat(b, 0, h + p, body);
    AtConcat(b, 0, h, p);
    HeaderParses(b, r);
    PrefixParses(b, |h|, r);
    TailParses(b, |h + p + body|, r);
    SmallInt64(|h + p| + |r.extra|);
    AtInside(b, |h + p|, body);
    if r.rct == [0] {
      assert b[|h + p| + |r.extra|] == body[|r.extra|] == 0;
    }
  }

  // ------------------------------------------------------------------
  // Only printed blocks parse
  // ------------------------------------------------------------------

  const BLANK := RawBlock([], [], [], [], [], [], [], [], [], [], [], [], [], [], [], [])

  /** The declared length of the extra field takes the position past the largest int64, so
      that it comes out negative. */
  predicate LeadsBack(b: Bytes) {
    && HeaderEnd(b).Ok? && PrefixAt(b, HeaderEnd(b).value).Ok?
    && var x := PrefixAt(b, HeaderEnd(b).value).value; x.extraAt + x.extraLen >= TWO_TO_THE_63
  }

  lemma NumberAt(b: Bytes, pos: nat) returns (raw: Bytes)
    requires VarintAt(b, pos).Ok?
    ensures At(b, pos, raw) && IsRaw(raw) && VarintAt(b, pos).value == Read(Number(raw), pos + |raw|)
  {
    hide RawValue, Uint64;
    ReadIsRaw(b, pos);
    raw := b[pos..VarintAt(b, pos).value.next];
  }

  lemma HeaderPrinted(b: Bytes) returns (r: RawBlock)
    requires HeaderEnd(b).Ok?
    ensures HeaderOk(r) && At(b, 0, PrintHeader(r)) && HeaderEnd(b).value == |PrintHeader(r)|
  {
    hide VarintAt, IsRaw, At, Number;
    var major := NumberAt(b, 0);
    var p1 := |major|;
    assert SkipVarints(b, 0, 3) == SkipVarints(b, p1, 2);
    var minor := NumberAt(b, p1);
    var p2 := p1 + |minor|;
    assert SkipVarints(b, p1, 2) == SkipVarints(b, p2, 1);
    var timestamp := NumberAt(b, p2);
    var p3 := p2 + |timestamp|;
    assert SkipVarints(b, p2, 1) == SkipVarints(b, p3, 0) == Ok(p3);
    var prev := PieceAt(b, p3, 32);
    var nonce := PieceAt(b, p3 + 32, 4);
    AtConcat(b, 0, major, minor);
    AtConcat(b, 0, major + minor, timestamp);
    AtConcat(b, 0, major + minor + timestamp, prev);
    AtConcat(b, 0, major + minor + timestamp + prev, nonce);
    r := BLANK.(major := major, minor := minor, timestamp := timestamp, prev := prev, nonce := nonce);
  }

  lemma OutputPrinted(b: Bytes, pos: nat) returns (o: Output)
    requires OutputEnd(b, pos).Ok?
    ensures OutputOk(o) && At(b, pos, PrintOutput(o)) && OutputEnd(b, pos).value == pos + |PrintOutput(o)|
  {
    hide VarintAt, IsRaw, Number;
    var amount := NumberAt(b, pos);
    var q := pos + |amount|;
    var tag := b[q];
    assert b[q..q + 1] == [tag];
    var key := PieceAt(b, q + 1, if tag == 2 then 32 else 33);
    AtConcat(b, pos, amount, [tag]);
    AtConcat(b, pos, amount + [tag], key);
    o := Output(amount, tag, key);
  }

  lemma {:induction false} OutputsPrinted(b: Bytes, pos: nat, n: nat) returns (os: seq<Output>)
    requires pos <= |b| && OutputsEnd(b, pos, n).Ok?
    ensures |os| == n && OutputsOk(os) && At(b, pos, PrintOutputs(os))
    ensures OutputsEnd(b, pos, n).value == pos + |PrintOutputs(os)|
    decreases n
  {
    hide At, OutputEnd, PrintOutput, OutputOk, PrintOutputs, OutputsOk;
    if n == 0 {
      os := [];
      NoOutputsAt(b, pos);
    } else {
      var o := OutputPrinted(b, pos);
      AtInside(b, pos, PrintOutput(o));
      var rest := OutputsPrinted(b, pos + |PrintOutput(o)|, n - 1);
      os := [o] + rest;
      OutputsPrepend(b, pos, o, rest);
    }
  }

  lemma NoOutputsAt(b: Bytes, pos: nat)
    requires pos <= |b|
    ensures PrintOutputs([]) == [] && OutputsOk([]) && At(b, pos, [])
  {
  }

  lemma OutputsPrepend(b: Bytes, pos: nat, o: Output, rest: seq<Output>)
    requires OutputOk(o) && OutputsOk(rest) && At(b, pos, PrintOutput(o))
    requires At(b, pos + |PrintOutput(o)|, PrintOutputs(rest))
    ensures OutputsOk([o] + rest) && At(b, pos, PrintOutputs([o] + rest))
    ensures |PrintOutputs([o] + rest)| == |PrintOutput(o)| + |PrintOutputs(rest)|
  {
    hide OutputOk, PrintOutput;
    assert ([o] + rest)[1..] == rest;
    AtConcat(b, pos, PrintOutput(o), PrintOutputs(rest));
  }

  lemma PrefixPrinted(b: Bytes, pos: nat, r0: RawBlock) returns (r: RawBlock)
    requires PrefixAt(b, pos).Ok?
    ensures PrefixOk(r) && At(b, pos, PrintPrefix(r))
    ensures PrefixAt(b, pos).value == Prefix(Number(r.version), pos + |PrintPrefix(r)|, Number(r.extraLen))
    ensures r == r0.(version := r.version, unlock := r.unlock, vin := r.vin, height := r.height, vout := r.vout,
                     outputs := r.outputs, extraLen := r.extraLen)
  {
    hide VarintAt, IsRaw, At, Number, OutputsEnd, PrintOutputs, OutputsOk;
    var version := NumberAt(b, pos);
    var unlock := NumberAt(b, pos + |version|);
    var s1 := version + unlock;
    AtConcat(b, pos, version, unlock);
    var vin := NumberAt(b, pos + |s1|);
    var s2 := s1 + vin;
    AtConcat(b, pos, s1, vin);
    ByteAt(b, pos + |s2|, 0xff);
    var s3 := s2 + [0xff];
    AtConcat(b, pos, s2, [0xff]);
    var height := NumberAt(b, pos + |s3|);
    var s4 := s3 + height;
    AtConcat(b, pos, s3, height);
    var vout := NumberAt(b, pos + |s4|);
    var s5 := s4 + vout;
    AtConcat(b, pos, s4, vout);
    var n := VarintAt(b, pos + |s4|).value.value;
    VarintInside(b, pos + |s4|);
    var outputs := OutputsPrinted(b, pos + |s5|, n);
    var s6 := s5 + PrintOutputs(outputs);
    AtConcat(b, pos, s5, PrintOutputs(outputs));
    var extraLen := NumberAt(b, pos + |s6|);
    AtConcat(b, pos, s6, extraLen);
    r := r0.(version := version, unlock := unlock, vin := vin, height := height, vout := vout, outputs := outputs,
        extraLen := extraLen);
  }

  lemma TailPrinted(b: Bytes, pos: nat, r0: RawBlock) returns (r: RawBlock)
    requires TxHashes(b, pos).Ok?
    ensures TailOk(r) && At(b, pos, PrintTail(r)) && |b| == pos + |PrintTail(r)|
    ensures TxHashes(b, pos).value == r.txs && r == r0.(txCount := r.txCount, txs := r.txs)
  {
    hide VarintAt, IsRaw, At, Number, PrintTxs;
    var txCount := NumberAt(b, pos);
    var txs := TxHashes(b, pos).value;
    TxsParse(b, pos + |txCount|, txs);
    AtConcat(b, pos, txCount, PrintTxs(txs));
    r := r0.(txCount := txCount, txs := txs);
  }

  /** A blob that parses is a printed block, unless the extra length led backwards. */
  lemma ParsedIsPrinted(b: Bytes) returns (r: RawBlock)
    requires |b| < TWO_TO_THE_63 && Parse(b).Ok? && !LeadsBack(b)
    ensures WellFormed(r) && Print(r) == b && Parse(b).value == SpansOf(r)
  {
    hide HeaderOk, PrefixOk, TailOk, PrintHeader, PrintPrefix, PrintTail, Number, HeaderEnd, PrefixAt;
    hide TxHashes, Int64, At;
    var r0 := HeaderPrinted(b);
    var h := PrintHeader(r0);
    var r1 := PrefixPrinted(b, |h|, r0);
    var p := PrintPrefix(r1);
    AtConcat(b, 0, h, p);
    var x := PrefixAt(b, |h|).value;
    SmallInt64(x.extraAt + x.extraLen);
    var at := |h + p|;
    var extra := PieceAt(b, at, x.extraLen);
    var rct: Bytes := if x.version >= 2 then [0] else [];
    RctAt(b, at, extra, rct);
    AtConcat(b, 0, h + p, extra + rct);
    var r2 := r1.(extra := extra, rct := rct);
    r := TailPrinted(b, at + |extra + rct|, r2);
    AtConcat(b, 0, h + p + (extra + rct), PrintTail(r));
    SameParts(r0, r1, r);
    Whole(b, Print(r));
  }

  lemma RctAt(b: Bytes, pos: nat, extra: Bytes, rct: Bytes)
    requires At(b, pos, extra) && rct in {[], [0]}
    requires rct == [0] ==> pos + |extra| < |b| && b[pos + |extra|] == 0
    ensures At(b, pos, extra + rct)
  {
    AtConcat(b, pos, extra, rct);
    if rct == [0] {
      ByteAt(b, pos + |extra|, 0);
    }
  }

  /** Header and prefix do not depend on the fields filled in after them. */
  lemma SameParts(r0: RawBlock, r1: RawBlock, r: RawBlock)
    requires r1 == r0.(version := r1.version, unlock := r1.unlock, vin := r1.vin, height := r1.height, vout := r1.vout,
                       outputs := r1.outputs, extraLen := r1.extraLen)
    requires r == r1.(extra := r.extra, rct := r.rct, txCount := r.txCount, txs := r.txs)
    ensures PrintHeader(r) == PrintHeader(r0) && (HeaderOk(r) <==> HeaderOk(r0))
    ensures PrintPrefix(r) == PrintPrefix(r1) && (PrefixOk(r) <==> PrefixOk(r1))
  {
    hide IsRaw, Number, PrintOutputs, OutputsOk;
  }

  lemma Whole(b: Bytes, s: Bytes)
    requires At(b, 0, s) && |s| == |b|
    ensures s == b
  {
  }

  /** The blobs that parse without being led backwards are exactly the printed blocks. */
  lemma ParsesExactly(b: Bytes)
    requires |b| < TWO_TO_THE_63
    ensures (exists r :: WellFormed(r) && Print(r) == b) <==> Parse(b).Ok? && !LeadsBack(b)
  {
    hide WellFormed, Print, Parse, LeadsBack;
    if Parse(b).Ok? && !LeadsBack(b) {
      var r := ParsedIsPrinted(b);
    }
    if r :| WellFormed(r) && Print(r) == b {
      ParsesPrinted(r);
      PrintedLeadsOn(r);
    }
  }

  lemma PrintedLeadsOn(r: RawBlock)
    requires WellFormed(r) && |Print(r)| < TWO_TO_THE_63
    ensures !LeadsBack(Print(r))
  {
    hide HeaderOk, PrefixOk, TailOk, PrintHeader, PrintPrefix, PrintTail, Number, HeaderEnd, PrefixAt, At;
    var b, h, p := Print(r), PrintHeader(r), PrintPrefix(r);
    AtWhole(b);
    AtConcat(b, 0, h + p + (r.extra + r.rct), PrintTail(r));
    AtConcat(b, 0, h + p, r.extra + r.rct);
    AtConcat(b, 0, h, p);
    HeaderParses(b, r);
    PrefixParses(b, |h|, r);
  }
}
