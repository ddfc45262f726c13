/** The keys of the pool's Redis store that decide payouts, the commands that change
    them, and the arithmetic of a payout run (storage/redis.go, payments/payer.go).
    Amounts are whole satoshis. */
module Ledger {
  import opened Prelude
  import opened Shares

  /** A pending block as storage/block.go records it; mark is the number of its share. */
  datatype Block = Block(hash: string, txHash: string, height: nat, finder: Miner, mark: int)

  /** PaymentUpdate: everything one payout run changes. */
  datatype Update = Update(
    balances: map<Miner, nat>,
    paid: map<Miner, nat>,
    confirmed: seq<Block>,
    orphaned: seq<Block>,
    deleteRounds: seq<nat>,
    cursor: nat)

  /** The payouts:intent hash. Torn is what SetPayoutIntentTxid leaves when the hash was gone. */
  datatype IntentKey = NoIntent | Intent(update: Update, txid: string) | Torn(txid: string)

  datatype Store = Store(
    lastSeq: nat,                          // shares:seq
    log: seq<Entry>,                       // shares:pplnslog, in score order
    current: map<Miner, real>,             // shares:roundCurrent
    rounds: map<nat, map<Miner, real>>,    // shares:round<height>
    pending: set<Block>,                   // blocks:pending
    confirmed: set<Block>,                 // blocks:confirmed
    orphaned: set<Block>,                  // blocks:orphaned
    balances: map<Miner, nat>,             // balances
    payouts: map<Miner, nat>,              // payouts
    cursor: nat,                           // pps:cursor
    intent: IntentKey)                     // payouts:intent

  const EMPTY_STORE := Store(0, [], map[], map[], {}, {}, {}, map[], map[], 0, NoIntent)

  datatype PayMode = Prop | PPLNS | Solo | PPS

  datatype Config = Config(
    mode: PayMode,
    minConfirmations: int,
    minPayment: nat,
    window: real,
    ppsRate: real,
    magnitude: real,
    cap: nat)

  // ------------------------------------------------------------------
  // Commands of the share writer
  // ------------------------------------------------------------------

  datatype Share = Share(
    miner: Miner, diff: real, valid: bool,
    hasBlock: bool, blockHash: string, txHash: string, height: nat)

  datatype Cmd =
    | LogShare(entry: Entry)
    | TrimLog
    | CountShare(entry: Entry)
    | SealRound(height: nat)
    | AddPending(block: Block)

  /** What the text of log members and pending records can carry: names and hashes without
      colons, a height that is an int64. */
  predicate Recordable(share: Share, accepted: bool) {
    && (share.valid ==> ColonFree(share.miner))
    && (share.hasBlock && accepted ==>
          ColonFree(share.blockHash) && ColonFree(share.txHash) && share.height < TWO_TO_THE_63)
  }

  function FoundBlock(share: Share, seqNo: nat): Block {
    Block(share.blockHash, share.txHash, share.height, share.miner, seqNo)
  }

  /** ZADD: entries stay in score order; an existing member is left alone. */
  function ZAdd(log: seq<Entry>, e: Entry): seq<Entry> {
    if e in log then log
    else
      var below := UpTo(log, e.seqNo);
      below + [e] + After(log, e.seqNo)
  }

  /** ZREMRANGEBYRANK 0 -(cap+1): keep the cap newest entries. */
  function KeepNewest(log: seq<Entry>, cap: nat): seq<Entry> {
    if |log| <= cap then log else log[|log| - cap..]
  }

  function Exec(cmd: Cmd, st: Store, cap: nat): Store {
    match cmd
    case LogShare(e) => st.(log := ZAdd(st.log, e))
    case TrimLog => st.(log := KeepNewest(st.log, cap))
    case CountShare(e) => st.(current := Credit(st.current, e.miner, e.diff))
    case SealRound(h) =>
      // RENAME fails when the source key does not exist
      if st.current == map[] then st
      else st.(rounds := st.rounds[h := st.current], current := map[])
    case AddPending(b) => st.(pending := st.pending + {b})
  }

  // ------------------------------------------------------------------
  // ApplyPayments
  // ------------------------------------------------------------------

  /** HINCRBYFLOAT of every paid amount. */
  function AddPaid(payouts: map<Miner, nat>, paid: map<Miner, nat>): map<Miner, nat> {
    map m | m in payouts.Keys + paid.Keys :: Get(payouts, m) + Get(paid, m)
  }

  /** The state after the MULTI/EXEC of one PaymentUpdate. */
  function Commit(st: Store, u: Update): Store {
    var c, o := Elems(u.confirmed), Elems(u.orphaned);
    var left := st.pending - c;
    st.(
      balances := st.balances + u.balances,
      payouts := AddPaid(st.payouts, u.paid),
      pending := left - o,
      confirmed := st.confirmed + st.pending * c,
      orphaned := st.orphaned + left * o,
      rounds := st.rounds - Elems(u.deleteRounds),
      cursor := if u.cursor > 0 then u.cursor else st.cursor,
      log := if u.cursor > 0 then After(st.log, u.cursor) else st.log,
      intent := NoIntent)
  }

  // ------------------------------------------------------------------
  // Attribution of a block reward
  // ------------------------------------------------------------------

  /** Floor of a non-negative amount. */
  function FloorSat(x: real): nat {
    if x <= 0.0 then 0 else x.Floor
  }

  /** One miner's part of a reward. */
  function Part(reward: nat, share: real, total: real): nat
    requires total > 0.0
  {
    FloorSat(reward as real * (share / total))
  }

  /** splitByShares: proportional parts, each rounded down; nothing when no work was done. */
  ghost function SplitByShares(reward: nat, shares: map<Miner, real>): map<Miner, nat> {
    var total := TotalReal(shares);
    if total <= 0.0 then map[]
    else map m | m in shares :: Part(reward, shares[m], total)
  }

  function RoundContrib(st: Store, height: nat): map<Miner, real> {
    if height in st.rounds then st.rounds[height] else map[]
  }

  ghost function Attribute(cfg: Config, st: Store, b: Block, reward: nat): map<Miner, nat> {
    match cfg.mode
    case Solo => if b.finder == "" then map[] else map[b.finder := reward]
    case PPLNS =>
      if cfg.window <= 0.0 then SplitByShares(reward, RoundContrib(st, b.height))
      else SplitByShares(reward, WindowShares(st.log, b.mark, cfg.window))
    case _ => SplitByShares(reward, RoundContrib(st, b.height))
  }

  ghost predicate NonNegative(shares: map<Miner, real>) {
    forall m | m in shares :: shares[m] >= 0.0
  }

  lemma {:induction false} TotalNonNegative(keys: set<Miner>, shares: map<Miner, real>)
    requires NonNegative(shares)
    ensures SumOverReal(keys, shares) >= 0.0
    ensures forall m | m in keys :: SumOverReal(keys, shares) >= GetReal(shares, m)
    decreases |keys|
  {
    if keys != {} {
      var k :| k in keys;
      SumOverRealPick(keys, shares, k);
      TotalNonNegative(keys - {k}, shares);
      forall m | m in keys ensures SumOverReal(keys, shares) >= GetReal(shares, m) {
        if m != k { assert m in keys - {k}; }
      }
    }
  }

  lemma DivideSum(a: real, b: real, t: real)
    requires t > 0.0
    ensures (a + b) / t == a / t + b / t
  {
    var x, y := a / t, b / t;
    assert x * t == a && y * t == b;
    assert (x + y) * t == a + b;
  }

  /** The unrounded part of the reward that belongs to the given miners. */
  ghost function ExactPart(keys: set<Miner>, reward: nat, shares: map<Miner, real>): real
    requires TotalReal(shares) > 0.0
  {
    reward as real * (SumOverReal(keys, shares) / TotalReal(shares))
  }

  lemma ExactPartPick(keys: set<Miner>, reward: nat, shares: map<Miner, real>, k: Miner)
    requires k in keys && k in shares && NonNegative(shares) && TotalReal(shares) > 0.0
    ensures
      var rest := ExactPart(keys - {k}, reward, shares);
      var part := Part(reward, shares[k], TotalReal(shares));
      part as real + rest <= ExactPart(keys, reward, shares) < part as real + rest + 1.0
  {
    var r, s, t := reward as real, shares[k], TotalReal(shares);
    var rest := SumOverReal(keys - {k}, shares);
    SumOverRealPick(keys, shares, k);
    DivideSum(s, rest, t);
    var x, y := s / t, rest / t;
    assert r * (x + y) == r * x + r * y;
    assert x >= 0.0;
    assert r * x >= 0.0;
  }

  /** Over any set of miners the rounded parts lose less than one satoshi each. */
  lemma {:induction false} SplitPartsBound(keys: set<Miner>, reward: nat, shares: map<Miner, real>)
    requires keys <= shares.Keys && NonNegative(shares) && TotalReal(shares) > 0.0
    ensures
      var sum := SumOver(keys, SplitByShares(reward, shares)) as real;
      if keys == {} then sum == ExactPart(keys, reward, shares) == 0.0
      else sum <= ExactPart(keys, reward, shares) < sum + |keys| as real
    decreases |keys|
  {
    var out := SplitByShares(reward, shares);
    if keys != {} {
      var k :| k in keys;
      SumOverPick(keys, out, k);
      SplitPartsBound(keys - {k}, reward, shares);
      ExactPartPick(keys, reward, shares, k);
      assert out[k] == Part(reward, shares[k], TotalReal(shares));
      assert |keys| as real == |keys - {k}| as real + 1.0;
    } else {
      assert SumOverReal(keys, shares) == 0.0;
    }
  }

  /** A split over n miners hands out at most the reward and more than reward - n. */
  lemma SplitConserves(reward: nat, shares: map<Miner, real>)
    requires NonNegative(shares) && TotalReal(shares) > 0.0
    ensures
      var out := SplitByShares(reward, shares);
      out.Keys == shares.Keys && reward - |shares| < Total(out) <= reward
  {
    var out, t := SplitByShares(reward, shares), TotalReal(shares);
    SplitPartsBound(shares.Keys, reward, shares);
    assert t / t == 1.0;
    assert ExactPart(shares.Keys, reward, shares) == reward as real;
    assert out.Keys == shares.Keys;
    assert |shares.Keys| == |shares|;
  }

  /** n is the proportion share / total of the reward, rounded down. */
  predicate IsPart(n: int, reward: nat, share: real, total: real) {
    n as real * total <= reward as real * share < (n + 1) as real * total
  }

  /** Each miner's part is its proportion of the reward, rounded down. */
  lemma SplitProportional(reward: nat, shares: map<Miner, real>)
    requires NonNegative(shares) && TotalReal(shares) > 0.0
    ensures
      var out := SplitByShares(reward, shares);
      out.Keys == shares.Keys && forall m | m in shares :: IsPart(out[m], reward, shares[m], TotalReal(shares))
  {
    hide SumOverReal, Part, IsPart;
    forall m | m in shares ensures IsPart(Part(reward, shares[m], TotalReal(shares)), reward, shares[m],
        TotalReal(shares)) {
      PartIs(reward, shares[m], TotalReal(shares));
    }
  }

  lemma PartIs(reward: nat, share: real, total: real)
    requires share >= 0.0 && total > 0.0
    ensures IsPart(Part(reward, share, total), reward, share, total)
  {
    var r, q, n := reward as real, share / total, Part(reward, share, total);
    assert q * total == share;
    assert q >= 0.0;
    assert r * q >= 0.0;
    assert n as real <= r * q < (n + 1) as real;
    assert (r * q) * total == r * share;
    assert (r * q - n as real) * total >= 0.0;
    assert ((n + 1) as real - r * q) * total > 0.0;
  }

  // ------------------------------------------------------------------
  // One payout run
  // ------------------------------------------------------------------

  /** The fraction withheld on the k-th sendmany attempt: 0, 1%, then doubling. */
  function Withhold(k: nat): real {
    if k == 0 then 0.0
    else
      var next := Withhold(k - 1) * 2.0;
      if next < 0.01 then 0.01 else next
  }

  /** What is left of an owed amount after withholding a fraction, rounded down. */
  function ToSend(owed: nat, withhold: real): nat {
    FloorSat(owed as real * (1.0 - withhold))
  }

  /** What the settlement sends to one worker. */
  function SentTo(owed: nat, minPayment: nat, withhold: real, payable: bool): nat {
    var toSend := ToSend(owed, withhold);
    if toSend >= minPayment && toSend > 0 && payable then toSend else 0
  }
}
