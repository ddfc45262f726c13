/** The coinbase halves (transactions/transactions.go, jobs/job.go) and a reader for the whole
    transaction. */
module Generation {
  import opened ByteStrings
  import opened Prelude
  import opened Packing
  import opened Coinbases

  /** A coinbase transaction. tail is what follows the lock time: comment and extra payload. */
  datatype Tx = Tx(
    version: nat, timestamp: Option<nat>, prevHash: Bytes, prevIndex: nat, script: Bytes, sequence: nat,
    outs: seq<TxOut>, lockTime: nat, tail: Bytes)

  predicate TxOk(tx: Tx) {
    && tx.version < Pow256(4) && tx.prevIndex < Pow256(4) && tx.sequence < Pow256(4) && tx.lockTime < Pow256(4)
    && (tx.timestamp.Some? ==> tx.timestamp.value < Pow256(4))
    && |tx.prevHash| == 32 && |tx.script| < TWO_TO_THE_64 && |tx.outs| < TWO_TO_THE_64
  }

  function PrintStamp(tx: Tx): Bytes {
    if tx.timestamp.Some? then ToLE(tx.timestamp.value, 4) else []
  }

  /** The standard serialization: one input, then the outputs. */
  function PrintTx(tx: Tx): Bytes
    requires TxOk(tx)
  {
    ToLE(tx.version, 4) + PrintStamp(tx) + VarIntBytes(1) + tx.prevHash + ToLE(tx.prevIndex, 4)
    + VarIntBytes(|tx.script|) + tx.script + ToLE(tx.sequence, 4)
    + OutputList(Printed(tx.outs)) + ToLE(tx.lockTime, 4) + tx.tail
  }

  // ------------------------------------------------------------------
  // Reading
  // ------------------------------------------------------------------

  datatype ReadOut = ReadOut(out: TxOut, next: nat)

  datatype ReadOuts = ReadOuts(outs: seq<TxOut>, next: nat)

  function OutAt(b: Bytes, pos: nat): Option<ReadOut> {
    var value :- FixedAt(b, pos, 8);
    var size :- VarIntAt(b, value.next);
    if value.value >= TWO_TO_THE_64 || size.value >= TWO_TO_THE_63 || size.next + size.value > |b| then None
    else Some(ReadOut(TxOut(value.value, b[size.next..size.next + size.value]), size.next + size.value))
  }

  function OutsAt(b: Bytes, pos: nat, n: nat): Option<ReadOuts>
    decreases n
  {
    if n == 0 then Some(ReadOuts([], pos))
    else
      var first :- OutAt(b, pos);
      var rest :- OutsAt(b, first.next, n - 1);
      Some(ReadOuts([first.out] + rest.outs, rest.next))
  }

  /** The version, the time stamp of a POS coin, and the single input's outpoint. */
  datatype Start = Start(version: nat, timestamp: Option<nat>, prevHash: Bytes, prevIndex: nat, next: nat)

  function StartAt(b: Bytes, stamped: bool): Option<Start> {
    var version :- FixedAt(b, 0, 4);
    var stamp :- if stamped then FixedAt(b, version.next, 4) else Some(Read(0, version.next));
    var inputs :- VarIntAt(b, stamp.next);
    if inputs.value != 1 || inputs.next + 32 > |b| then None
    else
      var index :- FixedAt(b, inputs.next + 32, 4);
      Some(Start(version.value, if stamped then Some(stamp.value) else None,
                 b[inputs.next..inputs.next + 32], index.value, index.next))
  }

  /** A reader for the transaction; stamped says whether the coin is a POS coin. */
  function ParseTx(b: Bytes, stamped: bool): Option<Tx> {
    var start :- StartAt(b, stamped);
    var size :- VarIntAt(b, start.next);
    var end := size.next + size.value;
    if end > |b| then None
    else
      var sequence :- FixedAt(b, end, 4);
      var count :- VarIntAt(b, sequence.next);
      var outs :- OutsAt(b, count.next, count.value);
      var lockTime :- FixedAt(b, outs.next, 4);
      Some(Tx(start.version, start.timestamp, start.prevHash, start.prevIndex, b[size.next..end], sequence.value,
              outs.outs, lockTime.value, b[lockTime.next..]))
  }

  lemma OutReads(b: Bytes, pos: nat, o: TxOut)
    requires At(b, pos, PrintOut(o))
    ensures OutAt(b, pos) == Some(ReadOut(o, pos + |PrintOut(o)|))
  {
    hide At, FixedAt, VarIntAt, VarIntBytes;
    Powers256();
    var le, size := ToLE(o.value, 8), VarIntBytes(|o.script|);
    AtConcat(b, pos, le + size, o.script);
    AtConcat(b, pos, le, size);
    FixedReads(b, pos, o.value, 8);
    VarIntReads(b, pos + 8, |o.script|);
    AtSlice(b, pos + |le + size|, o.script);
  }

  lemma {:induction false} OutsRead(b: Bytes, pos: nat, outs: seq<TxOut>)
    requires At(b, pos, Join(Printed(outs)))
    ensures OutsAt(b, pos, |outs|) == Some(ReadOuts(outs, pos + |Join(Printed(outs))|))
    decreases |outs|
  {
    hide At, OutAt, PrintOut, OutsAt, Join, Printed;
    if outs == [] {
      NoOuts(b, pos);
    } else {
      var first, rest := outs[0], outs[1..];
      PrintedUnfold(outs);
      AtConcat(b, pos, PrintOut(first), Join(Printed(rest)));
      OutReads(b, pos, first);
      OutsRead(b, pos + |PrintOut(first)|, rest);
      assert outs == [first] + rest;
      NextOuts(b, pos, first, pos + |PrintOut(first)|, rest, pos + |Join(Printed(outs))|);
    }
  }

  lemma NoOuts(b: Bytes, pos: nat)
    ensures OutsAt(b, pos, 0) == Some(ReadOuts([], pos)) && Join(Printed([])) == []
  {
  }

  lemma NextOuts(b: Bytes, pos: nat, first: TxOut, mid: nat, rest: seq<TxOut>, end: nat)
    requires OutAt(b, pos) == Some(ReadOut(first, mid)) && OutsAt(b, mid, |rest|) == Some(ReadOuts(rest, end))
    ensures OutsAt(b, pos, |rest| + 1) == Some(ReadOuts([first] + rest, end))
  {
    hide OutAt;
  }

  lemma StartReads(b: Bytes, tx: Tx)
    requires TxOk(tx)
    requires At(b, 0, ToLE(tx.version, 4) + PrintStamp(tx) + VarIntBytes(1) + tx.prevHash + ToLE(tx.prevIndex, 4))
    ensures StartAt(b, tx.timestamp.Some?)
            == Some(Start(tx.version, tx.timestamp, tx.prevHash, tx.prevIndex, 4 + |PrintStamp(tx)| + 1 + 32 + 4))
  {
    hide At, FixedAt, VarIntAt;
    var s1 := ToLE(tx.version, 4);
    var s2 := s1 + PrintStamp(tx);
    var s3 := s2 + VarIntBytes(1);
    var s4 := s3 + tx.prevHash;
    AtConcat(b, 0, s4, ToLE(tx.prevIndex, 4));
    AtConcat(b, 0, s3, tx.prevHash);
    AtConcat(b, 0, s2, VarIntBytes(1));
    AtConcat(b, 0, s1, PrintStamp(tx));
    FixedReads(b, 0, tx.version, 4);
    if tx.timestamp.Some? { FixedReads(b, 4, tx.timestamp.value, 4); }
    VarIntReads(b, |s2|, 1);
    AtSlice(b, |s3|, tx.prevHash);
    FixedReads(b, |s4|, tx.prevIndex, 4);
    assert |VarIntBytes(1)| == 1;
    assert VarIntAt(b, |s2|) == Some(Read(1, |s3|));
    assert FixedAt(b, |s3| + 32, 4) == Some(Read(tx.prevIndex, |s4| + 4));
  }

  /** Every transaction that can be written is read back. */
  lemma TxReads(tx: Tx)
    requires TxOk(tx)
    ensures ParseTx(PrintTx(tx), tx.timestamp.Some?) == Some(tx)
  {
    hide At, FixedAt, VarIntAt, VarIntBytes, StartAt, OutsAt, Join, Printed, PrintStamp;
    var b := PrintTx(tx);
    var s1 := ToLE(tx.version, 4) + PrintStamp(tx) + VarIntBytes(1) + tx.prevHash + ToLE(tx.prevIndex, 4);
    var s2 := s1 + VarIntBytes(|tx.script|);
    var s3 := s2 + tx.script;
    var s4 := s3 + ToLE(tx.sequence, 4);
    var list := OutputList(Printed(tx.outs));
    var s5 := s4 + list;
    var s6 := s5 + ToLE(tx.lockTime, 4);
    assert b == s6 + tx.tail;
    AtWhole(b);
    AtConcat(b, 0, s6, tx.tail);
    AtConcat(b, 0, s5, ToLE(tx.lockTime, 4));
    AtConcat(b, 0, s4, list);
    AtConcat(b, 0, s3, ToLE(tx.sequence, 4));
    AtConcat(b, 0, s2, tx.script);
    AtConcat(b, 0, s1, VarIntBytes(|tx.script|));
    StartReads(b, tx);
    StartLength(tx);
    VarIntReads(b, |s1|, |tx.script|);
    AtSlice(b, |s2|, tx.script);
    FixedReads(b, |s3|, tx.sequence, 4);
    AtConcat(b, |s4|, VarIntBytes(|tx.outs|), Join(Printed(tx.outs)));
    VarIntReads(b, |s4|, |tx.outs|);
    OutsRead(b, |s4| + |VarIntBytes(|tx.outs|)|, tx.outs);
    FixedReads(b, |s5|, tx.lockTime, 4);
    AtSlice(b, |s6|, tx.tail);
    assert b[|s6|..] == tx.tail;
  }

  lemma StartLength(tx: Tx)
    requires TxOk(tx)
    ensures |ToLE(tx.version, 4) + PrintStamp(tx) + VarIntBytes(1) + tx.prevHash + ToLE(tx.prevIndex, 4)|
            == 4 + |PrintStamp(tx)| + 1 + 32 + 4
  {
  }

  // ------------------------------------------------------------------
  // What was read is what would be written
  // ------------------------------------------------------------------

  lemma OutIs(b: Bytes, pos: nat)
    requires OutAt(b, pos).Some?
    ensures
      var r := OutAt(b, pos).value;
      && pos + |PrintOut(r.out)| <= r.next <= |b|
      && (r.next == pos + |PrintOut(r.out)| ==> At(b, pos, PrintOut(r.out)))
  {
    hide FixedAt, VarIntAt, VarIntBytes, At;
    FixedIs(b, pos, 8);
    VarIntIs(b, pos + 8);
    var o, size := OutAt(b, pos).value.out, VarIntAt(b, pos + 8).value;
    SliceAt(b, size.next, size.value);
    AtConcat(b, pos, ToLE(o.value, 8) + VarIntBytes(|o.script|), o.script);
    AtConcat(b, pos, ToLE(o.value, 8), VarIntBytes(|o.script|));
  }

  lemma SliceAt(b: Bytes, pos: nat, n: nat)
    requires pos + n <= |b|
    ensures At(b, pos, b[pos..pos + n])
  {
  }

  lemma {:induction false} OutsAre(b: Bytes, pos: nat, n: nat)
    requires OutsAt(b, pos, n).Some? && pos <= |b|
    ensures
      var r := OutsAt(b, pos, n).value;
      && |r.outs| == n && pos + |Join(Printed(r.outs))| <= r.next <= |b|
      && (r.next == pos + |Join(Printed(r.outs))| ==> At(b, pos, Join(Printed(r.outs))))
    decreases n
  {
    hide OutAt, PrintOut;
    if n > 0 {
      var first := OutAt(b, pos).value;
      OutIs(b, pos);
      OutsAre(b, first.next, n - 1);
      var rest := OutsAt(b, first.next, n - 1).value;
      var outs := [first.out] + rest.outs;
      assert outs[1..] == rest.outs;
      PrintedUnfold(outs);
      hide At, Join, Printed;
      AtConcat(b, pos, PrintOut(first.out), Join(Printed(rest.outs)));
    }
  }

  lemma StartIs(b: Bytes, stamped: bool)
    requires StartAt(b, stamped).Some?
    ensures
      var s := StartAt(b, stamped).value;
      var stamp := if stamped then ToLE(s.timestamp.value, 4) else [];
      var bytes := ToLE(s.version, 4) + stamp + VarIntBytes(1) + s.prevHash + ToLE(s.prevIndex, 4);
      && s.timestamp.Some? == stamped && s.version < Pow256(4) && s.prevIndex < Pow256(4) && |s.prevHash| == 32
      && (stamped ==> s.timestamp.value < Pow256(4))
      && |bytes| == 41 + |stamp| <= s.next <= |b| && (s.next == |bytes| ==> At(b, 0, bytes))
  {
    hide At, FixedAt, VarIntAt;
    var s := StartAt(b, stamped).value;
    var stamp := if stamped then ToLE(s.timestamp.value, 4) else [];
    FixedIs(b, 0, 4);
    if stamped { FixedIs(b, 4, 4); }
    AtNothing(b, 4);
    VarIntIs(b, 4 + |stamp|);
    assert |VarIntBytes(1)| == 1;
    hide VarIntBytes;
    var inputs := VarIntAt(b, 4 + |stamp|).value;
    SliceAt(b, inputs.next, 32);
    FixedIs(b, inputs.next + 32, 4);
    var s1 := ToLE(s.version, 4);
    var s2 := s1 + stamp;
    var s3 := s2 + VarIntBytes(1);
    var s4 := s3 + s.prevHash;
    AtConcat(b, 0, s4, ToLE(s.prevIndex, 4));
    AtConcat(b, 0, s3, s.prevHash);
    AtConcat(b, 0, s2, VarIntBytes(1));
    AtConcat(b, 0, s1, stamp);
  }

  lemma AtNothing(b: Bytes, pos: nat)
    ensures pos <= |b| ==> At(b, pos, [])
  {
  }

  /** Whatever parses is no shorter than the transaction's serialization, and is the
      serialization if it is as short. */
  lemma ParsedIsPrinted(b: Bytes, stamped: bool)
    requires ParseTx(b, stamped).Some?
    ensures
      var tx := ParseTx(b, stamped).value;
      && TxOk(tx) && tx.timestamp.Some? == stamped
      && |PrintTx(tx)| <= |b| && (|PrintTx(tx)| == |b| <==> b == PrintTx(tx))
  {
    hide At, FixedAt, VarIntAt, VarIntBytes, StartAt, OutsAt, Join, Printed;
    var tx, start := ParseTx(b, stamped).value, StartAt(b, stamped).value;
    StartIs(b, stamped);
    VarIntIs(b, start.next);
    var size := VarIntAt(b, start.next).value;
    var end := size.next + size.value;
    SliceAt(b, size.next, size.value);
    FixedIs(b, end, 4);
    VarIntIs(b, end + 4);
    var count := VarIntAt(b, end + 4).value;
    OutsAre(b, count.next, count.value);
    var outs := OutsAt(b, count.next, count.value).value;
    FixedIs(b, outs.next, 4);
    SliceAt(b, outs.next + 4, |b| - (outs.next + 4));
    assert b[outs.next + 4..|b|] == b[outs.next + 4..];
    hide StartAt, OutsAt, ParseTx;
    TxPieces(b, tx, start.next, size.next, end, count.next, outs.next);
  }

  /** Where the pieces of a transaction stand when none of them takes more bytes than needed. */
  lemma TxPieces(b: Bytes, tx: Tx, atSize: nat, atScript: nat, atSequence: nat, atOuts: nat, atLock: nat)
    requires TxOk(tx)
    requires
      var head := ToLE(tx.version, 4) + PrintStamp(tx) + VarIntBytes(1) + tx.prevHash + ToLE(tx.prevIndex, 4);
      |head| <= atSize && (atSize == |head| ==> At(b, 0, head))
    requires
      var size := VarIntBytes(|tx.script|);
      atSize + |size| <= atScript && (atScript == atSize + |size| ==> At(b, atSize, size))
    requires atSequence == atScript + |tx.script| && At(b, atScript, tx.script)
    requires At(b, atSequence, ToLE(tx.sequence, 4))
    requires
      var n, list := VarIntBytes(|tx.outs|), Join(Printed(tx.outs));
      && atSequence + 4 + |n| <= atOuts && (atOuts == atSequence + 4 + |n| ==> At(b, atSequence + 4, n))
      && atOuts + |list| <= atLock && (atLock == atOuts + |list| ==> At(b, atOuts, list))
    requires At(b, atLock, ToLE(tx.lockTime, 4)) && At(b, atLock + 4, tx.tail) && |b| == atLock + 4 + |tx.tail|
    ensures |PrintTx(tx)| <= |b| && (|PrintTx(tx)| == |b| <==> b == PrintTx(tx))
  {
    hide At, VarIntBytes, Join, Printed, PrintStamp;
    var s1 := ToLE(tx.version, 4) + PrintStamp(tx) + VarIntBytes(1) + tx.prevHash + ToLE(tx.prevIndex, 4);
    var s2 := s1 + VarIntBytes(|tx.script|);
    var s3 := s2 + tx.script;
    var s4 := s3 + ToLE(tx.sequence, 4);
    var list := OutputList(Printed(tx.outs));
    var s5 := s4 + list;
    var s6 := s5 + ToLE(tx.lockTime, 4);
    assert PrintTx(tx) == s6 + tx.tail;
    if |PrintTx(tx)| == |b| {
      AtConcat(b, 0, s1, VarIntBytes(|tx.script|));
      AtConcat(b, 0, s2, tx.script);
      AtConcat(b, 0, s3, ToLE(tx.sequence, 4));
      AtConcat(b, |s4|, VarIntBytes(|tx.outs|), Join(Printed(tx.outs)));
      AtConcat(b, 0, s4, list);
      AtConcat(b, 0, s5, ToLE(tx.lockTime, 4));
      AtConcat(b, 0, s6, tx.tail);
      AtSlice(b, 0, PrintTx(tx));
      assert b[0..|b|] == b;
    }
  }

  // ------------------------------------------------------------------
  // CreateGeneration
  // ------------------------------------------------------------------

  function Ascii(s: string): Bytes {
    seq(|s|, i requires 0 <= i < |s| => s[i] as int % 256)
  }

  const COMMENT := "by Command"
  const SIGNATURE := "/by Command/"

  function Comment(messages: bool): Bytes {
    if messages then SerializeString(Ascii(COMMENT)) else []
  }

  function Signature(): Bytes {
    SerializeString(Ascii(SIGNATURE))
  }

  function Version(t: Template, messages: bool): nat {
    if t.payload.Some? then 3 + 5 * 0x10000 else if messages then 2 else 1
  }

  /** The extra payload with its length; nothing when it is empty. */
  function PayloadBytes(t: Template): Bytes {
    if t.payload.None? || t.payload.value == [] then [] else VarIntBytes(|t.payload.value|) + t.payload.value
  }

  /** The script up to the extranonces: height, flags, time, length of the extranonces. */
  function ScriptStart(t: Template, placeholder: Bytes, now: nat): Bytes
    requires 0 <= t.height < TWO_TO_THE_63 && now < TWO_TO_THE_63
  {
    NumberPush(t.height) + t.flags + NumberPush(now) + [|placeholder| % 256]
  }

  predicate Sized(t: Template, pool: Script, rs: seq<Recipient>, placeholder: Script) {
    |Outs(t, pool, rs)| < TWO_TO_THE_63 && |t.flags| + |placeholder| < TWO_TO_THE_63 && t.curTime < 0x1_0000_0000
  }

  /** The transaction that the pool means to build with the given extranonces. */
  function Intended(t: Template, pool: Script, rs: seq<Recipient>, placeholder: Script, nonces: Bytes,
                    stamped: bool, messages: bool, now: nat): Tx
    requires 0 <= t.height < TWO_TO_THE_63 && now < TWO_TO_THE_63
  {
    Tx(Version(t, messages), if stamped then Some(t.curTime) else None, Zeros(32), 0xFFFF_FFFF,
       ScriptStart(t, placeholder, now) + nonces + Signature(), 0,
       Outs(t, pool, rs), 0, Comment(messages) + PayloadBytes(t))
  }

  datatype Halves = Halves(first: Bytes, second: Bytes)

  /** CreateGeneration. None is the panic of SerializeNumber: heights and times are uint64s
      there, so a negative one is too large. */
  method CreateGeneration(t: Template, publicKey: Script, extraNoncePlaceholder: Script, pos: bool, txMessages: bool,
                          recipients: seq<Recipient>, now: Amount)
    returns (r: Option<Halves>)
    requires Sized(t, publicKey, recipients, extraNoncePlaceholder) && -TWO_TO_THE_63 <= t.height < TWO_TO_THE_63
    ensures r == if 0 <= t.height && now < TWO_TO_THE_63
                 then Some(HalvesOf(t, publicKey, extraNoncePlaceholder, pos, txMessages, recipients, now)) else None
  {
    hide NumberPush, SerializeString, Ascii, Outs, Buffers, OutputList, VarIntBytes, ToLE;
    var txVersion, txComment;
    var txType := 0;
    var txExtraPayload: Bytes := [];
    if txMessages {
      txVersion := 2;
      txComment := SerializeString(Ascii(COMMENT));
    } else {
      txVersion := 1;
      txComment := [];
    }
    var txLockTime := 0;
    if t.payload.Some? {
      txVersion := 3;
      txType := 5;
      txExtraPayload := t.payload.value;
    }
    txVersion := txVersion + txType * 0x10000;
    var txTimestamp: Bytes := [];
    if pos {
      txTimestamp := ToLE(t.curTime, 4);
    }
    var height := SerializeNumber(if t.height >= 0 then t.height else t.height + TWO_TO_THE_64);
    var time := SerializeNumber(now);
    if height == None || time == None {
      return None;
    }
    var scriptSigPart1 := height.value + t.flags + time.value + [|extraNoncePlaceholder| % 256];
    var scriptSigPart2 := SerializeString(Ascii(SIGNATURE));
    ScriptFits(t, extraNoncePlaceholder, now);
    var p1 := ToLE(txVersion, 4) + txTimestamp + VarIntBytes(1) + Zeros(32) + ToLE(0xFFFF_FFFF, 4)
      + VarIntBytes(|scriptSigPart1| + |extraNoncePlaceholder| + |scriptSigPart2|) + scriptSigPart1;
    var outputTransactions := GenerateOutputTransactions(publicKey, recipients, t);
    var p2 := scriptSigPart2 + ToLE(0, 4) + outputTransactions + ToLE(txLockTime, 4) + txComment;
    ghost var base := p2;
    assert base + [] == base;
    if |txExtraPayload| > 0 {
      p2 := p2 + VarIntBytes(|txExtraPayload|) + txExtraPayload;
    }
    assert p2 == base + PayloadBytes(t);
    r := Some(Halves(p1, p2));
  }

  lemma ScriptFits(t: Template, placeholder: Script, now: nat)
    requires 0 <= t.height < TWO_TO_THE_63 && now < TWO_TO_THE_63 && |t.flags| + |placeholder| < TWO_TO_THE_63
    ensures |ScriptStart(t, placeholder, now)| + |placeholder| + |Signature()| < TWO_TO_THE_64
    ensures |Signature()| == 13
  {
    NumberRoom(t.height);
    NumberRoom(now);
    hide NumberBytes;
    assert |SIGNATURE| == 12;
    assert |NumberPush(t.height)| <= 9 && |NumberPush(now)| <= 9;
  }

  function HalvesOf(t: Template, pool: Script, placeholder: Script, pos: bool, messages: bool, rs: seq<Recipient>,
                    now: nat): Halves
    requires Sized(t, pool, rs, placeholder) && 0 <= t.height < TWO_TO_THE_63 && now < TWO_TO_THE_63
  {
    var start := ScriptStart(t, placeholder, now);
    ScriptFits(t, placeholder, now);
    Halves(
      ToLE(Version(t, messages), 4) + (if pos then ToLE(t.curTime, 4) else []) + VarIntBytes(1) + Zeros(32)
          + ToLE(0xFFFF_FFFF, 4)
      + VarIntBytes(|start| + |placeholder| + |Signature()|) + start,
      Signature() + ToLE(0, 4) + OutputList(Buffers(t, pool, rs)) + ToLE(0, 4) + Comment(messages) + PayloadBytes(t))
  }

  /** SerializeCoinbase. */
  function SerializeCoinbase(halves: Halves, extraNonce1: Bytes, extraNonce2: Bytes): Bytes {
    halves.first + extraNonce1 + extraNonce2 + halves.second
  }

  /** With extranonces of the reserved length in between, the halves are the serialization of
      the intended transaction exactly when every masternode entry comes out as a standard
      output; otherwise they are still no longer than it. */
  lemma HalvesArePrinted(t: Template, pool: Script, rs: seq<Recipient>, placeholder: Script,
                         extraNonce1: Bytes, extraNonce2: Bytes, pos: bool, messages: bool, now: nat)
    requires Sized(t, pool, rs, placeholder) && 0 <= t.height < TWO_TO_THE_63 && now < TWO_TO_THE_63
    requires |extraNonce1| + |extraNonce2| == |placeholder|
    ensures
      var tx := Intended(t, pool, rs, placeholder, extraNonce1 + extraNonce2, pos, messages, now);
      var coinbase := SerializeCoinbase(HalvesOf(t, pool, placeholder, pos, messages, rs, now), extraNonce1,
          extraNonce2);
      && TxOk(tx) && |coinbase| <= |PrintTx(tx)|
      && (coinbase == PrintTx(tx) <==> forall o | o in t.masternode :: StandardEntry(o))
  {
    hide ScriptStart, Outs, Buffers, OutputList, Comment, PayloadBytes, Signature, VarIntBytes, StandardEntry;
    Powers256();
    var tx := Intended(t, pool, rs, placeholder, extraNonce1 + extraNonce2, pos, messages, now);
    var start, sig := ScriptStart(t, placeholder, now), Signature();
    ScriptFits(t, placeholder, now);
    assert |tx.script| == |start| + |placeholder| + |sig|;
    OutputsStandard(t, pool, rs);
    OutputsShorter(t, pool, rs);
    var list, meant := OutputList(Buffers(t, pool, rs)), OutputList(Printed(Outs(t, pool, rs)));
    var head := ToLE(tx.version, 4) + PrintStamp(tx) + VarIntBytes(1) + Zeros(32) + ToLE(0xFFFF_FFFF, 4)
        + VarIntBytes(|tx.script|);
    Regroup(head, start, extraNonce1, extraNonce2, sig, ToLE(0, 4), list, ToLE(0, 4), Comment(messages),
        PayloadBytes(t));
    Between(head + tx.script + ToLE(0, 4), list, meant, ToLE(0, 4) + tx.tail);
    AddTail(head + tx.script + ToLE(0, 4), list, ToLE(0, 4), tx.tail);
    AddTail(head + tx.script + ToLE(0, 4), meant, ToLE(0, 4), tx.tail);
  }

  lemma Between(a: Bytes, x: Bytes, y: Bytes, b: Bytes)
    ensures a + x + b == a + y + b <==> x == y
  {
    if a + x + b == a + y + b {
      assert |x| == |y|;
      assert x == (a + x + b)[|a|..|a| + |x|] && y == (a + y + b)[|a|..|a| + |y|];
    }
  }

  lemma AddTail(a: Bytes, x: Bytes, b: Bytes, c: Bytes)
    ensures a + x + b + c == a + x + (b + c)
  {
  }

  lemma Regroup(head: Bytes, start: Bytes, e1: Bytes, e2: Bytes, sig: Bytes, a: Bytes, list: Bytes, z: Bytes,
                comment: Bytes, payload: Bytes)
    ensures (head + start) + e1 + e2 + (sig + a + list + z + comment + payload)
            == head + (start + (e1 + e2) + sig) + a + list + z + (comment + payload)
  {
  }

  /** The coinbase that miners complete parses back to the intended transaction exactly when
      every masternode entry comes out as a standard output. The intended script starts by
      pushing the height (BIP 34), and the intended outputs are those that pay out the block. */
  lemma CoinbaseParses(t: Template, pool: Script, rs: seq<Recipient>, placeholder: Script,
                       extraNonce1: Bytes, extraNonce2: Bytes, pos: bool, messages: bool, now: nat)
    requires Sized(t, pool, rs, placeholder) && 0 <= t.height < TWO_TO_THE_63 && now < TWO_TO_THE_63
    requires |extraNonce1| + |extraNonce2| == |placeholder|
    ensures
      var coinbase := SerializeCoinbase(HalvesOf(t, pool, placeholder, pos, messages, rs, now), extraNonce1,
          extraNonce2);
      var tx := Intended(t, pool, rs, placeholder, extraNonce1 + extraNonce2, pos, messages, now);
      && (ParseTx(coinbase, pos) == Some(tx) <==> forall o | o in t.masternode :: StandardEntry(o))
      && tx.outs == Outs(t, pool, rs)
      && PushedAt(tx.script, 0) == Some(Read(t.height, |NumberPush(t.height)|))
  {
    hide TxOk, PrintTx, ParseTx, HalvesOf, Outs, Comment, PayloadBytes, Signature, StandardEntry;
    HalvesArePrinted(t, pool, rs, placeholder, extraNonce1, extraNonce2, pos, messages, now);
    TxReads(Intended(t, pool, rs, placeholder, extraNonce1 + extraNonce2, pos, messages, now));
    HeightFirst(t, placeholder, extraNonce1 + extraNonce2, now);
    var coinbase := SerializeCoinbase(HalvesOf(t, pool, placeholder, pos, messages, rs, now), extraNonce1, extraNonce2);
    if ParseTx(coinbase, pos).Some? { ParsedIsPrinted(coinbase, pos); }
  }

  /** A template that pays one satoshi to a masternode's one-byte script gets nine bytes for
      that output where ten are needed: the amount is the wrong way round and the script is
      missing, and the coinbase does not parse to the intended transaction. */
  lemma MasternodeScriptLost(t: Template, pool: Script, rs: seq<Recipient>, placeholder: Script,
                             extraNonce1: Bytes, extraNonce2: Bytes, pos: bool, messages: bool, now: nat)
    requires t.masternode == [TxOut(1, [0x51])]
    requires Sized(t, pool, rs, placeholder) && 0 <= t.height < TWO_TO_THE_63 && now < TWO_TO_THE_63
    requires |extraNonce1| + |extraNonce2| == |placeholder|
    ensures PrintMasternode(t.masternode[0]) == [0, 0, 0, 0, 0, 0, 0, 1, 1]
    ensures PrintOut(t.masternode[0]) == [1, 0, 0, 0, 0, 0, 0, 0, 1, 0x51]
    ensures OutputList(Buffers(t, pool, rs)) != OutputList(Printed(Outs(t, pool, rs)))
    ensures
      var coinbase := SerializeCoinbase(HalvesOf(t, pool, placeholder, pos, messages, rs, now), extraNonce1,
          extraNonce2);
      ParseTx(coinbase, pos) != Some(Intended(t, pool, rs, placeholder, extraNonce1 + extraNonce2, pos, messages, now))
  {
    OneSatoshi();
    assert !StandardEntry(t.masternode[0]) && t.masternode[0] in t.masternode;
    hide StandardEntry, PrintOut, PrintMasternode;
    OutputsStandard(t, pool, rs);
    CoinbaseParses(t, pool, rs, placeholder, extraNonce1, extraNonce2, pos, messages, now);
  }

  lemma OneSatoshi()
    ensures ToLE(1, 8) == [1, 0, 0, 0, 0, 0, 0, 0] && Reversed(ToLE(1, 8)) == [0, 0, 0, 0, 0, 0, 0, 1]
  {
    ZeroBytes(7);
    assert ToLE(1, 8) == [1] + ToLE(0, 7);
    hide ToLE;
    assert ToLE(1, 8) == [1, 0, 0, 0, 0, 0, 0, 0];
    assert Reversed(ToLE(1, 8)) == [0, 0, 0, 0, 0, 0, 0, 1];
  }

  lemma {:induction false} ZeroBytes(k: nat)
    ensures ToLE(0, k) == Zeros(k)
  {
    if k > 0 {
      ZeroBytes(k - 1);
      assert Zeros(k) == [0] + Zeros(k - 1);
    }
  }

  lemma HeightFirst(t: Template, placeholder: Bytes, nonces: Bytes, now: nat)
    requires 0 <= t.height < TWO_TO_THE_63 && now < TWO_TO_THE_63
    ensures PushedAt(ScriptStart(t, placeholder, now) + nonces + Signature(), 0)
            == Some(Read(t.height, |NumberPush(t.height)|))
  {
    hide NumberPush, Signature, PushedAt;
    var push := NumberPush(t.height);
    var script := ScriptStart(t, placeholder, now) + nonces + Signature();
    assert script[0..|push|] == push;
    assert At(script, 0, push);
    NumberReads(script, 0, t.height);
  }

  /** The other fields of the intended transaction: no previous output, final at once, and a
      version whose upper half is the type 5 exactly when the template has a payload. */
  lemma IntendedFields(t: Template, pool: Script, rs: seq<Recipient>, placeholder: Script, nonces: Bytes,
                       stamped: bool, messages: bool, now: nat)
    requires 0 <= t.height < TWO_TO_THE_63 && now < TWO_TO_THE_63
    ensures
      var tx := Intended(t, pool, rs, placeholder, nonces, stamped, messages, now);
      && |tx.prevHash| == 32 && (forall i | 0 <= i < 32 :: tx.prevHash[i] == 0) && tx.prevIndex + 1 == 0x1_0000_0000
      && tx.sequence == tx.lockTime == 0 && tx.version / 0x1_0000 == (if t.payload.Some? then 5 else 0)
      && tx.version % 0x1_0000 == (if t.payload.Some? then 3 else if messages then 2 else 1)
      && (tx.timestamp.Some? <==> stamped) && (stamped ==> tx.timestamp.value == t.curTime)
  {
    hide Outs, ScriptStart, Signature, Comment, PayloadBytes;
  }

  /** The intended script, read back: the height is pushed, the flags follow, the time is pushed,
      one byte says how long the extranonces are, and then come the extranonces and the pool's
      signature. */
  lemma ScriptReads(t: Template, pool: Script, rs: seq<Recipient>, placeholder: Script, nonces: Bytes,
                    stamped: bool, messages: bool, now: nat)
    requires 0 <= t.height < TWO_TO_THE_63 && now < TWO_TO_THE_63 && |nonces| == |placeholder|
    ensures
      var script := Intended(t, pool, rs, placeholder, nonces, stamped, messages, now).script;
      var flags := |NumberPush(t.height)|;
      var time := flags + |t.flags|;
      var size := time + |NumberPush(now)|;
      && PushedAt(script, 0) == Some(Read(t.height, flags)) && At(script, flags, t.flags)
      && PushedAt(script, time) == Some(Read(now, size))
      && size < |script| && script[size] == |placeholder| % 256
      && At(script, size + 1, nonces) && script[size + 1 + |nonces|..] == SerializeString(Ascii(SIGNATURE))
  {
    hide NumberPush, SerializeString, PushedAt, At, Ascii, Outs, Comment, PayloadBytes, Version;
    var h, n, sig := NumberPush(t.height), NumberPush(now), Signature();
    var s1 := h + t.flags;
    var s2 := s1 + n;
    var s3 := s2 + [|placeholder| % 256];
    var script := s3 + nonces + sig;
    AtWhole(script);
    AtConcat(script, 0, s3 + nonces, sig);
    AtConcat(script, 0, s3, nonces);
    AtConcat(script, 0, s2, [|placeholder| % 256]);
    AtConcat(script, 0, s1, n);
    AtConcat(script, 0, h, t.flags);
    NumberReads(script, 0, t.height);
    NumberReads(script, |s1|, now);
    AtByte(script, |s2|, |placeholder| % 256);
    assert script[|s3| + |nonces|..] == sig;
  }

  /** What follows the lock time is the payload a transaction of type 5 carries, exactly when
      there is no comment and the payload is not empty. */
  lemma PayloadFollows(t: Template, messages: bool)
    requires t.payload.Some?
    ensures Comment(messages) + PayloadBytes(t) == VarIntBytes(|t.payload.value|) + t.payload.value
            <==> !messages && t.payload.value != []
  {
    hide SerializeString;
    CommentLength();
    if !messages {
      assert [] + PayloadBytes(t) == PayloadBytes(t);
    }
  }

  /** The signature in the script and the comment after the lock time, byte for byte. */
  lemma PoolMarks()
    ensures Signature() ==
              [12, 0x2f, 0x62, 0x79, 0x20, 0x43, 0x6f, 0x6d, 0x6d, 0x61, 0x6e, 0x64, 0x2f]
    ensures Comment(true) == [10, 0x62, 0x79, 0x20, 0x43, 0x6f, 0x6d, 0x6d, 0x61, 0x6e, 0x64]
    ensures Comment(false) == []
  {
    var text := [0x2f, 0x62, 0x79, 0x20, 0x43, 0x6f, 0x6d, 0x6d, 0x61, 0x6e, 0x64, 0x2f];
    assert |SIGNATURE| == 12 && |COMMENT| == 10;
    assert Ascii(SIGNATURE) == text;
    assert Ascii(COMMENT) == text[1..11];
    assert text[1..11] == [0x62, 0x79, 0x20, 0x43, 0x6f, 0x6d, 0x6d, 0x61, 0x6e, 0x64];
  }

  lemma CommentLength()
    ensures |SerializeString(Ascii(COMMENT))| == 11
  {
    assert |COMMENT| == 10;
  }
}
