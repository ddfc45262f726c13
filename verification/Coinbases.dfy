/** The coinbase transaction (transactions/transactions.go, jobs/job.go): its outputs add up
    to the block's value, and the two halves with any extranonces of the reserved length parse
    back to the intended transaction. Hex and address decoding have already happened. */
module Coinbases {
  import opened ByteStrings
  import opened Prelude
  import opened Packing

  /** uint64. */
  type Amount = n: int | 0 <= n < TWO_TO_THE_64

  /** A Go slice: its length is an int. */
  type Script = s: Bytes | |s| < TWO_TO_THE_63 witness []

  datatype TxOut = TxOut(value: Amount, script: Script)

  /** A payee of the template; without an amount it gets a fifth. */
  datatype NamedPayee = NamedPayee(amount: Option<Amount>, script: Script)

  /** A fee recipient; the percentage is a fraction of 1, whatever was configured. overflow is
      what the machine makes of an amount that is no uint64. */
  datatype Recipient = Recipient(percent: real, overflow: Amount, script: Script)

  datatype Template = Template(
    coinbaseValue: Amount,
    masternode: seq<TxOut>,
    superblock: seq<TxOut>,
    payee: Option<NamedPayee>,
    commitment: Option<Script>,
    payload: Option<Script>,
    height: int,
    flags: Script,
    curTime: nat)

  // ------------------------------------------------------------------
  // Amounts
  // ------------------------------------------------------------------

  /** Subtraction of uint64s. */
  function Minus(a: Amount, b: Amount): Amount {
    if b <= a then a - b else a - b + TWO_TO_THE_64
  }

  /** What is left after paying everything on a list. */
  function Left(reward: Amount, outs: seq<TxOut>): Amount
    decreases |outs|
  {
    if outs == [] then reward else Left(Minus(reward, outs[0].value), outs[1..])
  }

  function Value(outs: seq<TxOut>): nat {
    if outs == [] then 0 else outs[0].value + Value(outs[1..])
  }

  /** The part of the reward that goes to the named payee; rounded up when it is a fifth. */
  function NamedAmount(p: NamedPayee, reward: Amount): Amount {
    if p.amount.Some? then p.amount.value else (reward + 4) / 5
  }

  /** What the template's own payees are paid. */
  function PayeeOuts(t: Template): seq<TxOut> {
    var listed := t.masternode + t.superblock;
    if t.payee.Some? then
      listed + [TxOut(NamedAmount(t.payee.value, Left(t.coinbaseValue, listed)), t.payee.value.script)]
    else listed
  }

  function Portion(r: Recipient, reward: Amount): Amount {
    var floor := (r.percent * reward as real).Floor;
    if 0 <= floor < TWO_TO_THE_64 then floor else r.overflow
  }

  lemma PortionFits(r: Recipient, reward: Amount)
    requires 0.0 <= r.percent <= 1.0
    ensures Portion(r, reward) as real <= r.percent * reward as real < Portion(r, reward) as real + 1.0
    ensures r.percent * reward as real <= reward as real
  {
    PartOf(r.percent, reward as real);
    var x := r.percent * reward as real;
    assert Portion(r, reward) == x.Floor;
  }

  lemma PartOf(p: real, r: real)
    requires 0.0 <= p <= 1.0 && r >= 0.0
    ensures 0.0 <= p * r <= r
  {
    assert (1.0 - p) * r >= 0.0;
  }

  function FeeOuts(rs: seq<Recipient>, reward: Amount): seq<TxOut> {
    seq(|rs|, i requires 0 <= i < |rs| => TxOut(Portion(rs[i], reward), rs[i].script))
  }

  /** All outputs in order: witness commitment, pool, payees, fees. */
  function Outs(t: Template, pool: Script, rs: seq<Recipient>): seq<TxOut> {
    var payees := PayeeOuts(t);
    var reward := Left(t.coinbaseValue, payees);
    var fees := FeeOuts(rs, reward);
    (if t.commitment.Some? then [TxOut(0, t.commitment.value)] else [])
    + ([TxOut(Left(reward, fees), pool)] + payees + fees)
  }

  /** Sum of the fee fractions. */
  function Fractions(rs: seq<Recipient>): real {
    if rs == [] then 0.0 else rs[0].percent + Fractions(rs[1..])
  }

  lemma {:induction false} ValueConcat(a: seq<TxOut>, b: seq<TxOut>)
    ensures Value(a + b) == Value(a) + Value(b)
  {
    if a == [] {
      assert a + b == b;
    } else {
      assert (a + b)[1..] == a[1..] + b;
      ValueConcat(a[1..], b);
    }
  }

  /** Paying out wraps around k times; not at all exactly when the reward covers it. */
  lemma {:induction false} LeftWraps(reward: Amount, outs: seq<TxOut>) returns (k: nat)
    ensures Left(reward, outs) + Value(outs) == reward + k * TWO_TO_THE_64
    ensures k == 0 <==> Value(outs) <= reward
    decreases |outs|
  {
    if outs == [] {
      k := 0;
    } else {
      var v := outs[0].value;
      k := LeftWraps(Minus(reward, v), outs[1..]);
      if v > reward { k := k + 1; }
    }
  }

  /** No fee is negative. */
  predicate NoNegativeFee(rs: seq<Recipient>) {
    forall r | r in rs :: r.percent >= 0.0
  }

  lemma {:induction false} FeesWithin(rs: seq<Recipient>, reward: Amount)
    requires NoNegativeFee(rs) && Fractions(rs) <= 1.0
    ensures Fractions(rs) >= 0.0 && Value(FeeOuts(rs, reward)) as real <= Fractions(rs) * reward as real
  {
    hide Portion;
    var fees := FeeOuts(rs, reward);
    if rs != [] {
      assert rs[0] in rs && NoNegativeFee(rs[1..]);
      FeesWithin(rs[1..], reward);
      FractionsSplit(rs);
      PortionFits(rs[0], reward);
      assert fees[1..] == FeeOuts(rs[1..], reward);
      hide Fractions, FeeOuts, NoNegativeFee;
      AddFee(Portion(rs[0], reward), rs[0].percent, Value(fees[1..]), Fractions(rs[1..]), reward as real);
    }
  }

  lemma FractionsSplit(rs: seq<Recipient>)
    requires rs != []
    ensures Fractions(rs) == rs[0].percent + Fractions(rs[1..])
  {
  }

  lemma AddFee(v: int, p: real, w: int, f: real, r: real)
    requires v as real <= p * r && w as real <= f * r
    ensures (v + w) as real <= (p + f) * r
  {
    assert (p + f) * r == p * r + f * r;
  }

  lemma FeesCovered(rs: seq<Recipient>, reward: Amount)
    requires NoNegativeFee(rs) && Fractions(rs) <= 1.0
    ensures Value(FeeOuts(rs, reward)) <= reward
  {
    hide *;
    FeesWithin(rs, reward);
    AtMost(Value(FeeOuts(rs, reward)), Fractions(rs), reward);
  }

  lemma AtMost(v: int, f: real, r: int)
    requires 0.0 <= f <= 1.0 && r >= 0 && v as real <= f * r as real
    ensures v <= r
  {
    PartOf(f, r as real);
    var x := f * r as real;
    assert v as real <= r as real;
  }

  lemma OutsValue(t: Template, pool: Script, rs: seq<Recipient>)
    ensures
      var payees := PayeeOuts(t);
      var reward := Left(t.coinbaseValue, payees);
      var fees := FeeOuts(rs, reward);
      Value(Outs(t, pool, rs)) == Left(reward, fees) + Value(payees) + Value(fees)
  {
    hide PayeeOuts, Left, FeeOuts;
    var payees := PayeeOuts(t);
    var reward := Left(t.coinbaseValue, payees);
    var fees := FeeOuts(rs, reward);
    var head := TxOut(Left(reward, fees), pool);
    ValueConcat([head] + payees, fees);
    ValueConcat([head], payees);
    if t.commitment.Some? {
      ValueConcat([TxOut(0, t.commitment.value)], [head] + payees + fees);
    } else {
      assert [] + ([head] + payees + fees) == [head] + payees + fees;
    }
  }

  /** In uint64 arithmetic the outputs always add up to the coinbase value. */
  lemma ValueConserved(t: Template, pool: Script, rs: seq<Recipient>)
    ensures Value(Outs(t, pool, rs)) % TWO_TO_THE_64 == t.coinbaseValue
  {
    hide PayeeOuts, Left, FeeOuts, Value, Outs;
    OutsValue(t, pool, rs);
    var payees := PayeeOuts(t);
    var k := LeftWraps(t.coinbaseValue, payees);
    var reward := Left(t.coinbaseValue, payees);
    var j := LeftWraps(reward, FeeOuts(rs, reward));
    assert Value(Outs(t, pool, rs)) == t.coinbaseValue + (k + j) * TWO_TO_THE_64;
  }

  /** When no fee is negative and they total at most 1, the outputs add up to it exactly, with
      nothing wrapped and a non-negative pool share, if and only if the payees fit. */
  lemma ValueExact(t: Template, pool: Script, rs: seq<Recipient>)
    requires NoNegativeFee(rs) && Fractions(rs) <= 1.0
    ensures Value(Outs(t, pool, rs)) == t.coinbaseValue <==> Value(PayeeOuts(t)) <= t.coinbaseValue
    ensures Value(PayeeOuts(t)) <= t.coinbaseValue ==>
              var reward := t.coinbaseValue - Value(PayeeOuts(t));
              Left(t.coinbaseValue, PayeeOuts(t)) == reward
              && 0 <= Left(reward, FeeOuts(rs, reward)) == reward - Value(FeeOuts(rs, reward))
  {
    hide PayeeOuts, Left, FeeOuts, Value, Outs;
    OutsValue(t, pool, rs);
    var payees := PayeeOuts(t);
    var k := LeftWraps(t.coinbaseValue, payees);
    var reward := Left(t.coinbaseValue, payees);
    var fees := FeeOuts(rs, reward);
    FeesCovered(rs, reward);
    var j := LeftWraps(reward, fees);
  }

  /** The outputs one by one: the witness commitment, the pool, the masternodes and superblocks as
      the template lists them, the named payee with its amount or a fifth of what was left
      before it rounded up, and each fee recipient, in order, with its fraction rounded down of
      what all these payees left. */
  lemma OutputsInOrder(t: Template, pool: Script, rs: seq<Recipient>) returns (before: Amount, left: Amount)
    ensures
      var outs, listed := Outs(t, pool, rs), t.masternode + t.superblock;
      var c, p := if t.commitment.Some? then 1 else 0, if t.payee.Some? then 1 else 0;
      var named, fees := c + 1 + |listed|, c + 1 + |listed| + p;
      && |outs| == fees + |rs|
      && (t.commitment.Some? ==> outs[0] == TxOut(0, t.commitment.value))
      && outs[c].script == pool && (outs[c].value + Value(outs[fees..])) % TWO_TO_THE_64 == left
      && outs[c + 1..named] == listed
      && (before + Value(listed)) % TWO_TO_THE_64 == t.coinbaseValue
      && (t.payee.Some? ==>
            && outs[named].script == t.payee.value.script
            && (t.payee.value.amount.Some? ==> outs[named].value == t.payee.value.amount.value)
            && (t.payee.value.amount.None? ==> before <= 5 * outs[named].value < before + 5))
      && (left + Value(outs[c + 1..fees])) % TWO_TO_THE_64 == t.coinbaseValue
      && forall i | 0 <= i < |rs| :: IsFee(outs[fees + i], rs[i], left)
  {
    hide Left, Value, FeeOuts, IsFee, PayeeOuts, Outs;
    var listed, payees := t.masternode + t.superblock, PayeeOuts(t);
    before := Left(t.coinbaseValue, listed);
    left := Left(t.coinbaseValue, payees);
    LeftModulo(t.coinbaseValue, listed);
    LeftModulo(t.coinbaseValue, payees);
    LeftModulo(left, FeeOuts(rs, left));
    FeesAre(rs, left);
    PayeesAre(t);
    OutsPieces(t, pool, rs);
    var outs, c := Outs(t, pool, rs), if t.commitment.Some? then 1 else 0;
    PartsOfPart(outs, c + 1, payees, |listed|);
    var fees := c + 1 + |payees|;
    assert forall i | 0 <= i < |rs| :: outs[fees + i] == outs[fees..][i];
  }

  lemma LeftModulo(reward: Amount, outs: seq<TxOut>)
    ensures (Left(reward, outs) + Value(outs)) % TWO_TO_THE_64 == reward
  {
    var k := LeftWraps(reward, outs);
  }

  lemma FeesAre(rs: seq<Recipient>, left: Amount)
    ensures |FeeOuts(rs, left)| == |rs| && forall i | 0 <= i < |rs| :: IsFee(FeeOuts(rs, left)[i], rs[i], left)
  {
    hide Portion, IsFee;
    forall i | 0 <= i < |rs| ensures IsFee(FeeOuts(rs, left)[i], rs[i], left) {
      FeeIs(rs[i], left);
    }
  }

  lemma PayeesAre(t: Template)
    ensures
      var listed, payees := t.masternode + t.superblock, PayeeOuts(t);
      var before := Left(t.coinbaseValue, listed);
      && |payees| == |listed| + (if t.payee.Some? then 1 else 0) && payees[..|listed|] == listed
      && (t.payee.Some? ==>
            var o := payees[|listed|];
            && o.script == t.payee.value.script
            && (t.payee.value.amount.Some? ==> o.value == t.payee.value.amount.value)
            && (t.payee.value.amount.None? ==> before <= 5 * o.value < before + 5))
  {
    hide Left;
  }

  lemma PartsOfPart(outs: seq<TxOut>, at: nat, part: seq<TxOut>, n: nat)
    requires at + |part| <= |outs| && outs[at..at + |part|] == part && n <= |part|
    ensures outs[at..at + n] == part[..n] && (n < |part| ==> outs[at + n] == part[n])
  {
    assert outs[at..at + n] == outs[at..at + |part|][..n];
    if n < |part| { assert outs[at + n] == outs[at..at + |part|][n]; }
  }

  /** A fee output; a fraction from 0 to 1 is rounded down. */
  predicate IsFee(o: TxOut, r: Recipient, left: Amount) {
    && o.script == r.script
    && (0.0 <= r.percent <= 1.0 ==> o.value as real <= r.percent * left as real < o.value as real + 1.0)
  }

  lemma FeeIs(r: Recipient, left: Amount)
    ensures IsFee(TxOut(Portion(r, left), r.script), r, left)
  {
    hide Portion;
    if 0.0 <= r.percent <= 1.0 { PortionFits(r, left); }
  }

  lemma OutsPieces(t: Template, pool: Script, rs: seq<Recipient>)
    ensures
      var outs, payees := Outs(t, pool, rs), PayeeOuts(t);
      var left := Left(t.coinbaseValue, payees);
      var c := if t.commitment.Some? then 1 else 0;
      var fees := c + 1 + |payees|;
      && |outs| == fees + |rs|
      && (t.commitment.Some? ==> outs[0] == TxOut(0, t.commitment.value))
      && outs[c] == TxOut(Left(left, FeeOuts(rs, left)), pool)
      && outs[c + 1..fees] == payees && outs[fees..] == FeeOuts(rs, left)
  {
    hide PayeeOuts, Left;
  }

  // ------------------------------------------------------------------
  // Output bytes
  // ------------------------------------------------------------------

  function PrintOut(o: TxOut): Bytes {
    ToLE(o.value, 8) + VarIntBytes(|o.script|) + o.script
  }

  /** A masternode entry as the code writes it: big-endian amount, script length, no script. */
  function PrintMasternode(o: TxOut): Bytes {
    Reversed(ToLE(o.value, 8)) + VarIntBytes(|o.script|)
  }

  /** bytes.Join without a separator. */
  function Join(parts: seq<Bytes>): Bytes {
    if parts == [] then [] else parts[0] + Join(parts[1..])
  }

  lemma {:induction false} JoinConcat(a: seq<Bytes>, b: seq<Bytes>)
    ensures Join(a + b) == Join(a) + Join(b)
  {
    if a == [] {
      assert a + b == b;
    } else {
      assert (a + b)[1..] == a[1..] + b;
      JoinConcat(a[1..], b);
    }
  }

  function Printed(outs: seq<TxOut>): (parts: seq<Bytes>)
    ensures |parts| == |outs|
  {
    seq(|outs|, i requires 0 <= i < |outs| => PrintOut(outs[i]))
  }

  function MasternodesPrinted(outs: seq<TxOut>): (parts: seq<Bytes>)
    ensures |parts| == |outs|
  {
    seq(|outs|, i requires 0 <= i < |outs| => PrintMasternode(outs[i]))
  }

  /** The outputs in front of the masternodes' and those behind them. */
  function HeadOuts(t: Template, pool: Script, rs: seq<Recipient>): seq<TxOut> {
    var reward := Left(t.coinbaseValue, PayeeOuts(t));
    (if t.commitment.Some? then [TxOut(0, t.commitment.value)] else [])
        + [TxOut(Left(reward, FeeOuts(rs, reward)), pool)]
  }

  function TailOuts(t: Template, rs: seq<Recipient>): seq<TxOut> {
    PayeeOuts(t)[|t.masternode|..] + FeeOuts(rs, Left(t.coinbaseValue, PayeeOuts(t)))
  }

  lemma OutsSplit(t: Template, pool: Script, rs: seq<Recipient>)
    ensures |PayeeOuts(t)| >= |t.masternode|
    ensures Outs(t, pool, rs) == HeadOuts(t, pool, rs) + t.masternode + TailOuts(t, rs)
  {
    hide Left, FeeOuts;
    var payees := PayeeOuts(t);
    assert payees[..|t.masternode|] == t.masternode;
    assert payees == t.masternode + payees[|t.masternode|..];
  }

  /** What is written for each output. */
  function Buffers(t: Template, pool: Script, rs: seq<Recipient>): (parts: seq<Bytes>)
    ensures |parts| == |Outs(t, pool, rs)|
  {
    OutsSplit(t, pool, rs);
    Printed(HeadOuts(t, pool, rs)) + MasternodesPrinted(t.masternode) + Printed(TailOuts(t, rs))
  }

  /** The output list: how many, then each of them. */
  function OutputList(parts: seq<Bytes>): Bytes
    requires |parts| < TWO_TO_THE_64
  {
    VarIntBytes(|parts|) + Join(parts)
  }

  /** A masternode entry that comes out as a standard output. */
  predicate StandardEntry(o: TxOut) {
    o.script == [] && Reversed(ToLE(o.value, 8)) == ToLE(o.value, 8)
  }

  lemma EntryBytes(o: TxOut)
    ensures |PrintMasternode(o)| + |o.script| == |PrintOut(o)|
    ensures PrintMasternode(o) == PrintOut(o) <==> StandardEntry(o)
  {
    hide VarIntBytes, ToLE, Reversed;
    var le, size := ToLE(o.value, 8), VarIntBytes(|o.script|);
    if o.script == [] {
      FirstParts(Reversed(le), size, le, size + o.script);
      assert le + (size + o.script) == le + size + o.script;
      assert size + o.script == size;
    }
  }

  lemma FirstParts(a: Bytes, x: Bytes, b: Bytes, y: Bytes)
    requires |a| == |b|
    ensures a + x == b + y <==> a == b && x == y
  {
    if a + x == b + y {
      assert a == (a + x)[..|a|] && b == (b + y)[..|a|];
      assert x == (a + x)[|a|..] && y == (b + y)[|a|..];
    }
  }

  lemma PrintedUnfold(outs: seq<TxOut>)
    requires outs != []
    ensures Join(Printed(outs)) == PrintOut(outs[0]) + Join(Printed(outs[1..]))
    ensures Join(MasternodesPrinted(outs)) == PrintMasternode(outs[0]) + Join(MasternodesPrinted(outs[1..]))
  {
    hide PrintOut, PrintMasternode;
    assert Printed(outs)[1..] == Printed(outs[1..]);
    assert MasternodesPrinted(outs)[1..] == MasternodesPrinted(outs[1..]);
  }

  /** Entries with scripts come out shorter than standard outputs. */
  lemma {:induction false} MasternodeLength(outs: seq<TxOut>)
    ensures |Join(MasternodesPrinted(outs))| <= |Join(Printed(outs))|
    ensures |Join(MasternodesPrinted(outs))| == |Join(Printed(outs))| ==> forall o | o in outs :: o.script == []
    decreases |outs|
  {
    if outs != [] {
      PrintedUnfold(outs);
      EntryBytes(outs[0]);
      hide PrintOut, PrintMasternode, Join, Printed, MasternodesPrinted;
      MasternodeLength(outs[1..]);
      assert outs == [outs[0]] + outs[1..];
    }
  }

  lemma {:induction false} MasternodesStandard(outs: seq<TxOut>)
    ensures Join(MasternodesPrinted(outs)) == Join(Printed(outs)) <==> forall o | o in outs :: StandardEntry(o)
    decreases |outs|
  {
    if outs != [] {
      MasternodeLength(outs);
      PrintedUnfold(outs);
      EntryBytes(outs[0]);
      MasternodesStandard(outs[1..]);
      hide PrintOut, PrintMasternode, Join, Printed, MasternodesPrinted, StandardEntry;
      assert outs == [outs[0]] + outs[1..];
      if outs[0].script == [] {
        FirstParts(PrintMasternode(outs[0]), Join(MasternodesPrinted(outs[1..])), PrintOut(outs[0]),
            Join(Printed(outs[1..])));
      } else {
        NotStandard(outs[0]);
      }
    }
  }

  lemma NotStandard(o: TxOut)
    ensures StandardEntry(o) ==> o.script == []
  {
  }

  lemma PrintedConcat(a: seq<TxOut>, b: seq<TxOut>)
    ensures Printed(a + b) == Printed(a) + Printed(b)
  {
  }

  /** The output list is the standard serialization of the outputs exactly when every
      masternode entry has no script and an amount that reads the same in both byte orders. */
  lemma OutputsStandard(t: Template, pool: Script, rs: seq<Recipient>)
    requires |Outs(t, pool, rs)| < TWO_TO_THE_64
    ensures OutputList(Buffers(t, pool, rs)) == OutputList(Printed(Outs(t, pool, rs)))
            <==> forall o | o in t.masternode :: StandardEntry(o)
  {
    hide HeadOuts, TailOuts, VarIntBytes, StandardEntry, PrintOut, PrintMasternode, PayeeOuts, Outs, Join;
    OutsSplit(t, pool, rs);
    MasternodesStandard(t.masternode);
    var a, m, b := HeadOuts(t, pool, rs), t.masternode, TailOuts(t, rs);
    PrintedConcat(a + m, b);
    PrintedConcat(a, m);
    var pa, pb, x, y := Printed(a), Printed(b), MasternodesPrinted(m), Printed(m);
    JoinConcat(pa + x, pb);
    JoinConcat(pa, x);
    JoinConcat(pa + y, pb);
    JoinConcat(pa, y);
    Middle(VarIntBytes(|Outs(t, pool, rs)|), Join(pa), Join(x), Join(y), Join(pb));
  }

  /** The output list is never longer than the standard one. */
  lemma OutputsShorter(t: Template, pool: Script, rs: seq<Recipient>)
    requires |Outs(t, pool, rs)| < TWO_TO_THE_64
    ensures |OutputList(Buffers(t, pool, rs))| <= |OutputList(Printed(Outs(t, pool, rs)))|
  {
    hide HeadOuts, TailOuts, VarIntBytes, PrintOut, PrintMasternode, PayeeOuts, Outs, Join;
    OutsSplit(t, pool, rs);
    MasternodeLength(t.masternode);
    var a, m, b := HeadOuts(t, pool, rs), t.masternode, TailOuts(t, rs);
    PrintedConcat(a + m, b);
    PrintedConcat(a, m);
    JoinConcat(Printed(a) + MasternodesPrinted(m), Printed(b));
    JoinConcat(Printed(a), MasternodesPrinted(m));
    JoinConcat(Printed(a) + Printed(m), Printed(b));
    JoinConcat(Printed(a), Printed(m));
  }

  lemma Middle(n: Bytes, a: Bytes, x: Bytes, y: Bytes, b: Bytes)
    ensures n + (a + x + b) == n + (a + y + b) <==> x == y
  {
    FirstParts(n, a + x + b, n, a + y + b);
    assert a + x + b == a + (x + b) && a + y + b == a + (y + b);
    FirstParts(a, x + b, a, y + b);
    if x + b == y + b {
      assert |x + b| == |y + b|;
      FirstParts(x, b, y, b);
    }
  }

  // ------------------------------------------------------------------
  // GenerateOutputTransactions
  // ------------------------------------------------------------------

  lemma {:induction false} LeftConcat(reward: Amount, a: seq<TxOut>, b: seq<TxOut>)
    ensures Left(reward, a + b) == Left(Left(reward, a), b)
    decreases |a|
  {
    if a == [] {
      assert a + b == b;
    } else {
      assert (a + b)[0] == a[0] && (a + b)[1..] == a[1..] + b;
      LeftConcat(Minus(reward, a[0].value), a[1..], b);
    }
  }

  lemma LeftNext(reward: Amount, outs: seq<TxOut>, i: nat)
    requires i < |outs|
    ensures Left(reward, outs[..i + 1]) == Minus(Left(reward, outs[..i]), outs[i].value)
  {
    assert outs[..i + 1] == outs[..i] + [outs[i]];
    LeftConcat(reward, outs[..i], [outs[i]]);
  }

  method GenerateOutputTransactions(poolRecipient: Script, recipients: seq<Recipient>, t: Template) returns (out: Bytes)
    requires |Outs(t, poolRecipient, recipients)| < TWO_TO_THE_64
    ensures out == OutputList(Buffers(t, poolRecipient, recipients))
  {
    var reward, rewardToPool, mn := PayMasternodes(t);
    var rest;
    reward, rewardToPool, rest := PayOthers(t, reward, rewardToPool);
    var fees;
    rewardToPool, fees := PayFees(recipients, reward, rewardToPool);
    var txOutputBuffers := mn + (rest + fees);
    txOutputBuffers := [PrintOut(TxOut(rewardToPool, poolRecipient))] + txOutputBuffers;
    if t.commitment.Some? {
      txOutputBuffers := [PrintOut(TxOut(0, t.commitment.value))] + txOutputBuffers;
    }
    BuffersAre(t, poolRecipient, recipients, mn, rest, fees, rewardToPool);
    assert txOutputBuffers == Buffers(t, poolRecipient, recipients);
    out := VarIntBytes(|txOutputBuffers|) + Join(txOutputBuffers);
  }

  lemma BuffersAre(t: Template, pool: Script, rs: seq<Recipient>, mn: seq<Bytes>, rest: seq<Bytes>, fees: seq<Bytes>,
                   toPool: Amount)
    requires mn == MasternodesPrinted(t.masternode)
    requires rest == (OutsSplit(t, pool, rs); Printed(PayeeOuts(t)[|t.masternode|..]))
    requires fees == Printed(FeeOuts(rs, Left(t.coinbaseValue, PayeeOuts(t))))
    requires toPool == Left(Left(t.coinbaseValue, PayeeOuts(t)), FeeOuts(rs, Left(t.coinbaseValue, PayeeOuts(t))))
    ensures Buffers(t, pool, rs)
            == (if t.commitment.Some? then [PrintOut(TxOut(0, t.commitment.value))] else [])
               + ([PrintOut(TxOut(toPool, pool))] + (mn + (rest + fees)))
  {
    hide PrintOut, PrintMasternode, Left, FeeOuts;
    OutsSplit(t, pool, rs);
    hide PayeeOuts;
    PrintedConcat(PayeeOuts(t)[|t.masternode|..], FeeOuts(rs, Left(t.coinbaseValue, PayeeOuts(t))));
  }

  /** The masternode branch. */
  method PayMasternodes(t: Template) returns (reward: Amount, rewardToPool: Amount, buffers: seq<Bytes>)
    ensures reward == rewardToPool == Left(t.coinbaseValue, t.masternode)
    ensures buffers == MasternodesPrinted(t.masternode)
  {
    hide PrintMasternode, Left, Minus;
    reward := t.coinbaseValue;
    rewardToPool := reward;
    buffers := [];
    NothingLeft(reward, t.masternode);
    for i := 0 to |t.masternode|
      invariant reward == rewardToPool == Left(t.coinbaseValue, t.masternode[..i])
      invariant |buffers| == i && forall k | 0 <= k < i :: buffers[k] == PrintMasternode(t.masternode[k])
    {
      var payeeReward := t.masternode[i].value;
      LeftNext(t.coinbaseValue, t.masternode, i);
      reward := Minus(reward, payeeReward);
      rewardToPool := Minus(rewardToPool, payeeReward);
      buffers := buffers + [PrintMasternode(t.masternode[i])];
    }
    assert t.masternode[..|t.masternode|] == t.masternode;
  }

  lemma NothingLeft(reward: Amount, outs: seq<TxOut>)
    ensures Left(reward, outs[..0]) == reward
  {
  }

  /** The superblock and named-payee branches. */
  method PayOthers(t: Template, reward0: Amount, toPool0: Amount)
    returns (reward: Amount, rewardToPool: Amount, buffers: seq<Bytes>)
    requires reward0 == toPool0 == Left(t.coinbaseValue, t.masternode)
    ensures reward == rewardToPool == Left(t.coinbaseValue, PayeeOuts(t))
    ensures |PayeeOuts(t)| >= |t.masternode| && buffers == Printed(PayeeOuts(t)[|t.masternode|..])
  {
    hide PrintOut, Left, Minus, NamedAmount;
    reward, rewardToPool, buffers := reward0, toPool0, [];
    NothingLeft(reward, t.superblock);
    for i := 0 to |t.superblock|
      invariant reward == rewardToPool == Left(reward0, t.superblock[..i])
      invariant |buffers| == i && forall k | 0 <= k < i :: buffers[k] == PrintOut(t.superblock[k])
    {
      var payeeReward := t.superblock[i].value;
      LeftNext(reward0, t.superblock, i);
      reward := Minus(reward, payeeReward);
      rewardToPool := Minus(rewardToPool, payeeReward);
      buffers := buffers + [PrintOut(t.superblock[i])];
    }
    assert t.superblock[..|t.superblock|] == t.superblock;
    LeftConcat(t.coinbaseValue, t.masternode, t.superblock);
    var listed := t.masternode + t.superblock;
    if t.payee.Some? {
      var payeeReward := NamedAmount(t.payee.value, reward);
      LeftOne(t.coinbaseValue, listed, TxOut(payeeReward, t.payee.value.script));
      reward := Minus(reward, payeeReward);
      rewardToPool := Minus(rewardToPool, payeeReward);
      buffers := buffers + [PrintOut(TxOut(payeeReward, t.payee.value.script))];
    }
  }

  lemma LeftOne(reward: Amount, outs: seq<TxOut>, o: TxOut)
    ensures Left(reward, outs + [o]) == Minus(Left(reward, outs), o.value)
  {
    LeftConcat(reward, outs, [o]);
  }

  /** The loop over the fee recipients. */
  method PayFees(recipients: seq<Recipient>, reward: Amount, toPool0: Amount)
    returns (rewardToPool: Amount, buffers: seq<Bytes>)
    requires toPool0 == reward
    ensures rewardToPool == Left(reward, FeeOuts(recipients, reward)) && buffers == Printed(FeeOuts(recipients, reward))
  {
    hide PrintOut, Left, Minus, Portion;
    rewardToPool, buffers := toPool0, [];
    ghost var outs := FeeOuts(recipients, reward);
    NothingLeft(reward, outs);
    for i := 0 to |recipients|
      invariant rewardToPool == Left(reward, outs[..i])
      invariant |buffers| == i && forall k | 0 <= k < i :: buffers[k] == PrintOut(outs[k])
    {
      var script := recipients[i].script;
      var recipientReward := Portion(recipients[i], reward);
      LeftNext(reward, outs, i);
      rewardToPool := Minus(rewardToPool, recipientReward);
      buffers := buffers + [PrintOut(TxOut(recipientReward, script))];
    }
    assert outs[..|recipients|] == outs;
  }
}
