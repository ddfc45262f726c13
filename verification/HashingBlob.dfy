/** The hashing blob of a CryptoNote block (engine/cryptonote/blob.go) and its independence
    of the nonce that miners roll. */
module HashingBlob {
  import opened Prelude
  import opened ByteStrings
  import opened Varint
  import opened TreeHashing
  import opened BlockBlob

  /** What the parser found lies inside the blob, the nonce right before the header's end. */
  lemma SpansInside(b: Bytes)
    requires Parse(b).Ok?
    ensures
      var p := Parse(b).value;
      && p.nonceOffset + 4 == p.headerEnd <= |b| && p.minerTxEnd <= |b|
      && 32 * |p.txHashes| < |b| && AllDigests(p.txHashes)
  {
    hide VarintAt, SkipVarints, PrefixAt, Int64, TxHashes;
    HashesInside(b, Parse(b).value.minerTxEnd);
  }

  lemma HashesInside(b: Bytes, pos: nat)
    requires TxHashes(b, pos).Ok?
    ensures pos <= |b| && 32 * |TxHashes(b, pos).value| < |b| && AllDigests(TxHashes(b, pos).value)
  {
    hide VarintAt;
    VarintAhead(b, pos);
  }

  /** Where two strings agree, their parts agree. */
  lemma SamePart(a: Bytes, b: Bytes, lo: nat, hi: nat, x: nat, y: nat)
    requires lo <= x <= y <= hi <= |a| && hi <= |b| && a[lo..hi] == b[lo..hi]
    ensures a[x..y] == b[x..y]
  {
    forall i | x <= i < y ensures a[i] == b[i] {
      assert a[lo..hi][i - lo] == b[lo..hi][i - lo];
    }
  }

  /** The spans that hashing can slice; anything else is a slice-bounds panic. */
  predicate Sliceable(p: Spans) {
    p.headerEnd <= p.minerTxEnd && (p.minerTxVer >= 2 ==> p.headerEnd < p.minerTxEnd)
  }

  /** minerTxHash: v1 transactions are hashed whole, later ones in three parts. */
  function MinerTxHash(keccak: Keccak, b: Bytes, p: Spans): Result<Digest>
    requires p.minerTxEnd <= |b|
  {
    if p.minerTxEnd < p.headerEnd then Panic
    else
      var tx := b[p.headerEnd..p.minerTxEnd];
      if p.minerTxVer < 2 then Ok(keccak(tx))
      else if tx == [] then Panic
      else
        var n := |tx| - 1;
        Ok(keccak(keccak(tx[..n]) + keccak(tx[n..]) + Zeros(32)))
  }

  /** header, tree root over the miner transaction and the others, number of transactions. */
  function Hashing(keccak: Keccak, b: Bytes, p: Spans): Result<Bytes>
    requires p.minerTxEnd <= |b| && p.headerEnd <= |b|
  {
    var minerTx :- MinerTxHash(keccak, b, p);
    Ok(b[..p.headerEnd] + TreeRoot(keccak, [minerTx] + p.txHashes) + Encode(|p.txHashes| + 1))
  }

  // ------------------------------------------------------------------
  // What a block is hashed as
  // ------------------------------------------------------------------

  /** The hash of a block's miner transaction: of the whole transaction in version 1; from
      version 2 on of the hashes of its prefix, of its RCT byte and of nothing. */
  function MinerTxId(keccak: Keccak, r: RawBlock): Digest {
    var prefix := PrintPrefix(r) + r.extra;
    if Number(r.version) < 2 then keccak(prefix) else keccak(keccak(prefix) + keccak([0]) + Zeros(32))
  }

  /** The bytes that miners hash for a block. */
  function BlockHashed(keccak: Keccak, r: RawBlock): Bytes {
    PrintHeader(r) + TreeRoot(keccak, [MinerTxId(keccak, r)] + r.txs) + Encode(|r.txs| + 1)
  }

  /** The hashing blob of a printed block is what the block is hashed as. */
  lemma HashesBlock(keccak: Keccak, r: RawBlock)
    requires WellFormed(r)
    ensures
      var b, p := Print(r), SpansOf(r);
      p.headerEnd <= |b| && p.minerTxEnd <= |b| && Hashing(keccak, b, p) == Ok(BlockHashed(keccak, r))
  {
    MinerTxSlice(r);
    hide Print, PrintHeader, PrintPrefix, HeaderOk, PrefixOk, TailOk, Number, TreeRoot, Encode;
    var tx := PrintPrefix(r) + r.extra + r.rct;
    if Number(r.version) >= 2 {
      assert tx[..|tx| - 1] == PrintPrefix(r) + r.extra && tx[|tx| - 1..] == [0];
    } else {
      assert tx == PrintPrefix(r) + r.extra;
    }
  }

  lemma MinerTxSlice(r: RawBlock)
    requires HeaderOk(r)
    ensures
      var b, p := Print(r), SpansOf(r);
      && p.headerEnd <= p.minerTxEnd <= |b| && b[..p.headerEnd] == PrintHeader(r)
      && b[p.headerEnd..p.minerTxEnd] == PrintPrefix(r) + r.extra + r.rct
  {
    hide PrintHeader, PrintPrefix, PrintTail, HeaderOk;
    var h, tx := PrintHeader(r), PrintPrefix(r) + r.extra + r.rct;
    assert Print(r) == h + tx + PrintTail(r);
  }

  /** hashingBlob; of a printed block, what the block is hashed as. */
  method BuildHashingBlob(keccak: Keccak, blob: Bytes, p: Spans) returns (r: Result<Bytes>)
    requires p.minerTxEnd <= |blob| && p.headerEnd <= |blob|
    ensures r == Hashing(keccak, blob, p)
    ensures forall raw | WellFormed(raw) && Print(raw) == blob && SpansOf(raw) == p ::
              r == Ok(BlockHashed(keccak, raw))
  {
    forall raw | WellFormed(raw) && Print(raw) == blob && SpansOf(raw) == p
      ensures Hashing(keccak, blob, p) == Ok(BlockHashed(keccak, raw))
    {
      HashesBlock(keccak, raw);
    }
    hide WellFormed, Print, SpansOf, BlockHashed;
    var minerTx := MinerTxHash(keccak, blob, p);
    if !minerTx.Ok? {
      return minerTx.PropagateFailure();
    }
    var leaves: seq<Bytes> := [minerTx.value];
    leaves := leaves + p.txHashes;
    var root := TreeHash(keccak, leaves);
    var out := blob[..p.headerEnd];
    out := out + root;
    out := AppendVarint(out, |p.txHashes| + 1);
    r := Ok(out);
  }

  /** withNonce: `copy(out[off:off+4], nonce)` on a copy of the blob. */
  function WithNonce(b: Bytes, off: nat, nonce: Bytes): (c: Bytes)
    requires off + 4 <= |b|
    ensures |c| == |b| && c[..off] == b[..off] && c[off + 4..] == b[off + 4..]
    ensures |nonce| == 4 ==> c[off..off + 4] == nonce
  {
    var n := if |nonce| < 4 then |nonce| else 4;
    var c := b[..off] + nonce[..n] + b[off + n..];
    assert c[off + 4..] == b[off + 4..];
    c
  }

  // ------------------------------------------------------------------
  // Reading behind a position sees only what is behind it
  // ------------------------------------------------------------------

  lemma {:induction false} ContinuedBehind(a: Bytes, b: Bytes, pos: nat, q: nat)
    requires |a| == |b| && pos <= q && pos <= |a| && a[pos..] == b[pos..]
    ensures Continued(a, q) == Continued(b, q)
    decreases |a| - q
  {
    if q < |a| {
      assert a[pos..][q - pos] == b[pos..][q - pos];
      ContinuedBehind(a, b, pos, q + 1);
    }
  }

  lemma VarintBehind(a: Bytes, b: Bytes, pos: nat, q: nat)
    requires |a| == |b| && pos <= q && pos <= |a| && a[pos..] == b[pos..]
    ensures VarintAt(a, q) == VarintAt(b, q)
  {
    hide RawValue, Uint64, Continued;
    ContinuedBehind(a, b, pos, q);
    if VarintAt(a, q).Ok? {
      var end := VarintAt(a, q).value.next;
      SamePart(a, b, pos, |a|, q, end);
    }
  }

  lemma {:induction false} OutputsBehind(a: Bytes, b: Bytes, pos: nat, q: nat, n: nat)
    requires |a| == |b| && pos <= q && pos <= |a| && a[pos..] == b[pos..]
    ensures OutputsEnd(a, q, n) == OutputsEnd(b, q, n)
    ensures OutputsEnd(a, q, n).Ok? ==> OutputsEnd(a, q, n).value >= q
    decreases n
  {
    hide OutputEnd;
    if n > 0 {
      OutputBehind(a, b, pos, q);
      if OutputEnd(a, q).Ok? {
        OutputsBehind(a, b, pos, OutputEnd(a, q).value, n - 1);
      }
    }
  }

  lemma OutputBehind(a: Bytes, b: Bytes, pos: nat, q: nat)
    requires |a| == |b| && pos <= q && pos <= |a| && a[pos..] == b[pos..]
    ensures OutputEnd(a, q) == OutputEnd(b, q)
    ensures OutputEnd(a, q).Ok? ==> OutputEnd(a, q).value >= q
  {
    hide VarintAt;
    VarintBehind(a, b, pos, q);
    if VarintAt(a, q).Ok? {
      VarintAhead(a, q);
      SameByte(a, b, pos, VarintAt(a, q).value.next);
    }
  }

  lemma VarintAhead(b: Bytes, q: nat)
    requires VarintAt(b, q).Ok?
    ensures q < VarintAt(b, q).value.next <= |b|
  {
  }

  lemma SameByte(a: Bytes, b: Bytes, pos: nat, q: nat)
    requires |a| == |b| && pos <= q && pos <= |a| && a[pos..] == b[pos..]
    ensures q < |a| ==> a[q] == b[q]
  {
    if q < |a| {
      assert a[pos..][q - pos] == b[pos..][q - pos];
    }
  }

  lemma PrefixBehind(a: Bytes, b: Bytes, pos: nat)
    requires |a| == |b| && pos <= |a| && a[pos..] == b[pos..]
    ensures PrefixAt(a, pos) == PrefixAt(b, pos)
  {
    hide VarintAt, OutputsEnd;
    VarintBehind(a, b, pos, pos);
    if !VarintAt(a, pos).Ok? { return; }
    var q := VarintAt(a, pos).value.next;
    VarintAhead(a, pos);
    VarintBehind(a, b, pos, q);
    if !VarintAt(a, q).Ok? { return; }
    VarintAhead(a, q);
    q := VarintAt(a, q).value.next;
    VarintBehind(a, b, pos, q);
    if !VarintAt(a, q).Ok? { return; }
    VarintAhead(a, q);
    q := VarintAt(a, q).value.next;
    SameByte(a, b, pos, q);
    PrefixRestBehind(a, b, pos, q + 1);
  }

  /** The second half of the prefix: height, outputs, extra length. */
  lemma PrefixRestBehind(a: Bytes, b: Bytes, pos: nat, q: nat)
    requires |a| == |b| && pos <= q && pos <= |a| && a[pos..] == b[pos..]
    ensures VarintAt(a, q) == VarintAt(b, q)
    ensures VarintAt(a, q).Ok? ==>
              var r := VarintAt(a, q).value.next;
              && VarintAt(a, r) == VarintAt(b, r)
              && (VarintAt(a, r).Ok? ==>
                    var vout := VarintAt(a, r).value;
                    && OutputsEnd(a, vout.next, vout.value) == OutputsEnd(b, vout.next, vout.value)
                    && (OutputsEnd(a, vout.next, vout.value).Ok? ==>
                          var end := OutputsEnd(a, vout.next, vout.value).value;
                          VarintAt(a, end) == VarintAt(b, end)))
  {
    hide VarintAt, OutputsEnd;
    VarintBehind(a, b, pos, q);
    if VarintAt(a, q).Ok? {
      VarintAhead(a, q);
      var r := VarintAt(a, q).value.next;
      VarintBehind(a, b, pos, r);
      if VarintAt(a, r).Ok? {
        VarintAhead(a, r);
        var vout := VarintAt(a, r).value;
        OutputsBehind(a, b, pos, vout.next, vout.value);
        if OutputsEnd(a, vout.next, vout.value).Ok? {
          VarintBehind(a, b, pos, OutputsEnd(a, vout.next, vout.value).value);
        }
      }
    }
  }

  lemma TxHashesBehind(a: Bytes, b: Bytes, pos: nat, q: nat)
    requires |a| == |b| && pos <= q && pos <= |a| && a[pos..] == b[pos..]
    requires TxHashes(a, q).Ok?
    ensures TxHashes(b, q) == TxHashes(a, q)
  {
    hide VarintAt;
    VarintBehind(a, b, pos, q);
    VarintAhead(a, q);
    var count := VarintAt(a, q).value;
    forall i | 0 <= i < count.value
      ensures a[count.next + 32 * i..count.next + 32 * i + 32] == b[count.next + 32 * i..count.next + 32 * i + 32]
    {
      var lo, hi := count.next + 32 * i, count.next + 32 * i + 32;
      SamePart(a, b, pos, |a|, lo, hi);
    }
    assert HashesAt(a, count.next, count.value) == HashesAt(b, count.next, count.value);
  }

  lemma {:induction false} SkipBefore(a: Bytes, b: Bytes, pos: nat, n: nat, end: nat)
    requires |a| == |b| && SkipVarints(a, pos, n) == Ok(end) && pos <= |a|
    requires end <= |a| && a[..end] == b[..end]
    ensures SkipVarints(b, pos, n) == Ok(end) && pos <= end
    decreases n
  {
    hide VarintAt;
    if n > 0 {
      var next := VarintAt(a, pos).value.next;
      VarintAhead(a, pos);
      SkipAhead(a, next, n - 1);
      SamePart(a, b, 0, end, pos, next);
      ReadLocal(a, b, pos);
      SkipBefore(a, b, next, n - 1, end);
    }
  }

  lemma {:induction false} SkipAhead(b: Bytes, pos: nat, n: nat)
    requires SkipVarints(b, pos, n).Ok? && pos <= |b|
    ensures pos <= SkipVarints(b, pos, n).value <= |b|
    decreases n
  {
    hide VarintAt;
    if n > 0 {
      VarintAhead(b, pos);
      SkipAhead(b, VarintAt(b, pos).value.next, n - 1);
    }
  }

  // ------------------------------------------------------------------
  // The nonce
  // ------------------------------------------------------------------

  lemma HeaderIgnoresNonce(b: Bytes, nonce: Bytes)
    requires HeaderEnd(b).Ok?
    ensures
      var end := HeaderEnd(b).value;
      36 <= end <= |b| && HeaderEnd(WithNonce(b, end - 4, nonce)) == Ok(end)
  {
    hide SkipVarints;
    var end := HeaderEnd(b).value;
    var c := WithNonce(b, end - 4, nonce);
    var fixed := end - 36;
    SamePart(b, c, 0, end - 4, 0, fixed);
    SkipBefore(b, c, 0, 3, fixed);
  }

  /** The parse does not depend on the nonce. */
  lemma ParseIgnoresNonce(b: Bytes, nonce: Bytes)
    requires Parse(b).Ok? && Sliceable(Parse(b).value)
    ensures Parse(b).value.nonceOffset + 4 <= |b|
    ensures Parse(WithNonce(b, Parse(b).value.nonceOffset, nonce)) == Parse(b)
  {
    hide HeaderEnd, PrefixAt, TxHashes, Int64, WithNonce;
    var p := Parse(b).value;
    var end := p.headerEnd;
    HeaderIgnoresNonce(b, nonce);
    var c := WithNonce(b, p.nonceOffset, nonce);
    PrefixBehind(b, c, end);
    var x := PrefixAt(b, end).value;
    var at := Int64(x.extraAt + x.extraLen);
    assert at >= end;
    SameByte(b, c, end, at);
    TxHashesBehind(b, c, end, p.minerTxEnd);
  }

  /** The block submitted is the block that was hashed: for every blob that can be hashed and
      every nonce, hashing the blob with the nonce put in gives the original hashing blob with
      the nonce put in at the same offset. */
  lemma NonceCommutes(keccak: Keccak, b: Bytes, nonce: Bytes)
    requires Parse(b).Ok? && Parse(b).value.headerEnd <= |b| && Parse(b).value.minerTxEnd <= |b|
    requires Hashing(keccak, b, Parse(b).value).Ok?
    ensures
      var p, h := Parse(b).value, Hashing(keccak, b, Parse(b).value).value;
      && p.nonceOffset + 4 <= |b| && p.nonceOffset + 4 <= |h|
      && Parse(WithNonce(b, p.nonceOffset, nonce)) == Ok(p)
      && Hashing(keccak, WithNonce(b, p.nonceOffset, nonce), p) == Ok(WithNonce(h, p.nonceOffset, nonce))
  {
    hide Parse, TreeRoot, Encode;
    var p := Parse(b).value;
    SpansInside(b);
    ParseIgnoresNonce(b, nonce);
    var c := WithNonce(b, p.nonceOffset, nonce);
    var e := p.headerEnd;
    assert b[e..|b|] == b[e..] == c[e..] == c[e..|b|];
    SamePart(b, c, e, |b|, e, p.minerTxEnd);
    var minerTx := MinerTxHash(keccak, b, p);
    assert MinerTxHash(keccak, c, p) == minerTx;
    var rest := TreeRoot(keccak, [minerTx.value] + p.txHashes) + Encode(|p.txHashes| + 1);
    NonceInHeader(b, p.nonceOffset, rest, nonce);
    assert b[..e] + rest == Hashing(keccak, b, p).value;
    assert c[..e] + rest == Hashing(keccak, c, p).value;
  }

  /** Putting a nonce into a block's bytes is putting it into the block, and into what the block
      is hashed as at the same place. */
  lemma NonceInBlock(keccak: Keccak, r: RawBlock, nonce: Bytes)
    requires WellFormed(r) && |nonce| == 4
    ensures
      var rolled, off := r.(nonce := nonce), |PrintHeader(r)| - 4;
      && WellFormed(rolled) && 0 <= off && off + 4 <= |Print(r)| && off + 4 <= |BlockHashed(keccak, r)|
      && Print(rolled) == WithNonce(Print(r), off, nonce)
      && BlockHashed(keccak, rolled) == WithNonce(BlockHashed(keccak, r), off, nonce)
  {
    NonceField(r, nonce);
    hide WellFormed, PrintHeader, PrintPrefix, PrintTail, TreeRoot, Encode, WithNonce, Number, MinerTxId;
    var fields := r.major + r.minor + r.timestamp + r.prev;
    var root := TreeRoot(keccak, [MinerTxId(keccak, r)] + r.txs);
    SameId(keccak, r, nonce);
    PutNonce(fields, r.nonce, nonce, PrintPrefix(r), r.extra + r.rct, PrintTail(r));
    PutNonce(fields, r.nonce, nonce, root, Encode(|r.txs| + 1), []);
    assert PrintHeader(r) + root + Encode(|r.txs| + 1) + [] == BlockHashed(keccak, r);
    assert PrintHeader(r.(nonce := nonce)) + root + Encode(|r.txs| + 1) + [] == BlockHashed(keccak, r.(nonce := nonce));
  }

  lemma SameId(keccak: Keccak, r: RawBlock, nonce: Bytes)
    requires PrintPrefix(r.(nonce := nonce)) == PrintPrefix(r)
    ensures MinerTxId(keccak, r.(nonce := nonce)) == MinerTxId(keccak, r)
  {
    hide PrintPrefix, Number;
  }

  lemma PutNonce(fields: Bytes, nonce0: Bytes, nonce: Bytes, x: Bytes, y: Bytes, z: Bytes)
    requires |nonce0| == |nonce| == 4
    ensures
      var b := (fields + nonce0) + x + y + z;
      |fields| + 4 <= |b| && WithNonce(b, |fields|, nonce) == (fields + nonce) + x + y + z
  {
    var b, rest := (fields + nonce0) + x + y + z, x + y + z;
    assert b == fields + nonce0 + rest;
    assert b[..|fields|] == fields && b[|fields| + 4..] == rest;
    assert (fields + nonce) + x + y + z == fields + nonce + rest;
  }

  lemma NonceField(r: RawBlock, nonce: Bytes)
    requires WellFormed(r) && |nonce| == 4
    ensures
      var rolled, fields := r.(nonce := nonce), r.major + r.minor + r.timestamp + r.prev;
      && WellFormed(rolled) && |r.nonce| == 4
      && PrintHeader(r) == fields + r.nonce && PrintHeader(rolled) == fields + nonce
      && PrintPrefix(rolled) == PrintPrefix(r) && PrintTail(rolled) == PrintTail(r)
  {
    hide IsRaw, Number, PrintOutputs, OutputsOk, TailOk, PrintTxs;
    SameTail(r, nonce);
  }

  lemma SameTail(r: RawBlock, nonce: Bytes)
    ensures PrintTail(r.(nonce := nonce)) == PrintTail(r) && (TailOk(r.(nonce := nonce)) <==> TailOk(r))
  {
    hide PrintTxs, IsRaw, Number, AllDigests;
  }

  lemma NonceInHeader(b: Bytes, off: nat, rest: Bytes, nonce: Bytes)
    requires off + 4 <= |b|
    ensures WithNonce(b, off, nonce)[..off + 4] + rest == WithNonce(b[..off + 4] + rest, off, nonce)
  {
  }

  /** Whoever hashes a v1 or v2 block only needs the parser not to have been led backwards. */
  lemma ForwardIsSliceable(b: Bytes)
    requires |b| < TWO_TO_THE_63 && Parse(b).Ok? && !LeadsBack(b)
    ensures Sliceable(Parse(b).value)
  {
    var r := ParsedIsPrinted(b);
    hide Parse, Print, LeadsBack, IsRaw, PrintOutputs, Number;
    assert |PrintPrefix(r)| >= 1;
  }

  // ------------------------------------------------------------------
  // A length that leads backwards
  // ------------------------------------------------------------------

  lemma {:induction false} EncodeLength(v: nat, k: nat)
    requires v >= Pow128(k)
    ensures |Encode(v)| > k
    decreases k
  {
    if k > 0 {
      assert Pow128(k) == 128 * Pow128(k - 1);
      PowerGrows(0, k - 1);
      EncodeLength(v / 128, k - 1);
    }
  }

  /** A blob that no printed block equals and that parses all the same: its extra length,
      2^64 - 14, takes the parser fourteen bytes back. */
  lemma BackwardBlob() returns (b: Bytes)
    ensures |b| == 74 && LeadsBack(b) && Parse(b).Ok? && Sliceable(Parse(b).value)
    ensures forall r :: WellFormed(r) ==> Print(r) != b
  {
    var v := TWO_TO_THE_64 - 14;
    var raw := Encode(v);
    Powers();
    EncodeValue(v);
    EncodeIsRaw(v, 10);
    EncodeLength(v, 9);
    var r := BLANK.(
      major := [0], minor := [0], timestamp := [0], prev := Zeros(32), nonce := Zeros(4),
      version := [1], unlock := [0], vin := [1], height := [0], vout := [0], extraLen := raw);
    b := BackwardParses(r, v);
    ParsesExactly(b);
    hide Parse, WellFormed, Print, LeadsBack;
  }

  lemma BackwardParses(r: RawBlock, v: nat) returns (b: Bytes)
    requires v == TWO_TO_THE_64 - 14 && |r.extraLen| == 10 && IsRaw(r.extraLen) && RawValue(r.extraLen) == v
    requires r == BLANK.(
                    major := [0], minor := [0], timestamp := [0], prev := Zeros(32), nonce := Zeros(4),
                    version := [1], unlock := [0], vin := [1], height := [0], vout := [0], extraLen := r.extraLen)
    ensures |b| == 74 && LeadsBack(b) && Parse(b).Ok? && Sliceable(Parse(b).value)
  {
    hide Parse, LeadsBack, PrefixAt, HeaderEnd;
    b := PrintHeader(r) + PrintPrefix(r) + Zeros(19);
    BackwardPrefix(b, r, v);
    BackwardTail(b, v);
  }

  lemma BackwardPrefix(b: Bytes, r: RawBlock, v: nat)
    requires |r.extraLen| == 10 && IsRaw(r.extraLen) && RawValue(r.extraLen) == v < TWO_TO_THE_64
    requires r == BLANK.(
                    major := [0], minor := [0], timestamp := [0], prev := Zeros(32), nonce := Zeros(4),
                    version := [1], unlock := [0], vin := [1], height := [0], vout := [0], extraLen := r.extraLen)
    requires b == PrintHeader(r) + PrintPrefix(r) + Zeros(19)
    ensures |b| == 74 && b[41] == 1
    ensures HeaderEnd(b) == Ok(39) && PrefixAt(b, 39) == Ok(Prefix(1, 55, v))
  {
    hide VarintAt, RawValue, Uint64, HeaderEnd, PrefixAt, At;
    var h, p := PrintHeader(r), PrintPrefix(r);
    assert |h| == 39 && |p| == 16 && p[2] == 1;
    SmallNumbers();
    PartsAt(b, h, p, Zeros(19));
    HeaderParses(b, r);
    PrefixParses(b, 39, r);
  }

  lemma BackwardTail(b: Bytes, v: nat)
    requires v == TWO_TO_THE_64 - 14 && |b| == 74 && b[41] == 1
    requires HeaderEnd(b) == Ok(39) && PrefixAt(b, 39) == Ok(Prefix(1, 55, v))
    ensures LeadsBack(b) && Parse(b).Ok? && Sliceable(Parse(b).value)
  {
    hide VarintAt, RawValue, Uint64, HeaderEnd, PrefixAt, Int64;
    assert Int64(55 + v) == 41 by { Backwards(); }
    SmallNumbers();
    StopsAt(b, 41, 0);
    assert b[41..42] == [1];
  }

  lemma Backwards()
    ensures Int64(55 + (TWO_TO_THE_64 - 14)) == 41
  {
  }

  lemma SmallNumbers()
    ensures RawValue([0]) == 0 && RawValue([1]) == 1
    ensures Uint64(0) == 0 && Uint64(1) == 1
  {
  }

  lemma PartsAt(b: Bytes, s: Bytes, t: Bytes, u: Bytes)
    requires b == s + t + u
    ensures At(b, 0, s) && At(b, |s|, t)
  {
    assert b[0..|s|] == s && b[|s|..|s| + |t|] == t;
  }
}
