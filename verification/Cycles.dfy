/** What one payout cycle does, in terms of what the wallet and the node answered: which blocks it
    moves, whose reward it divides, and what it sends. */
module Cycles {
  import opened Prelude
  import opened Shares
  import opened Coins
  import opened Ledger
  import opened Protocol
  import opened Payer

  // ------------------------------------------------------------------
  // What a reply says
  // ------------------------------------------------------------------

  /** The i-th detail is the first that pays the pool. */
  predicate FirstPaying(details: seq<Detail>, pool: string, i: nat) {
    i < |details| && details[i].address == pool && forall j | 0 <= j < i :: details[j].address != pool
  }

  predicate NonePaying(details: seq<Detail>, pool: string) {
    forall d | d in details :: d.address != pool
  }

  predicate Dropped(category: Category) {
    category == OrphanTx || category == Kicked
  }

  /** The coinbase is on the chain, deep enough, and pays the pool the given coins: what the first
      detail for the pool says, unless that one is orphaned or kicked, or else the whole amount. */
  ghost predicate Matured(cfg: Config, wallet: Wallet, pool: string, b: Block, coin: real) {
    var reply := wallet.tx(b);
    && reply.Tx? && reply.confirmations >= 0 && reply.confirmations >= cfg.minConfirmations
    && if NonePaying(reply.details, pool) then coin == reply.amount
       else exists i: nat :: FirstPaying(reply.details, pool, i)
                             && !Dropped(reply.details[i].category) && coin == reply.details[i].amount
  }

  /** The coinbase is conflicted or its payment to the pool is orphaned or kicked; or the wallet
      does not know it, and the node rejects the block or has it off the main chain. */
  ghost predicate OffChain(wallet: Wallet, pool: string, b: Block) {
    match wallet.tx(b)
    case Tx(n, _, details) =>
      n < 0 || exists i: nat :: FirstPaying(details, pool, i) && Dropped(details[i].category)
    case TxError(code) =>
      code == -5 && (wallet.chain(b).BlockError? || (wallet.chain(b).BlockAt? && wallet.chain(b).confirmations < 0))
    case _ => false
  }

  lemma {:induction false} PoolDetailIs(details: seq<Detail>, pool: string)
    ensures PoolDetail(details, pool).None? <==> NonePaying(details, pool)
    ensures PoolDetail(details, pool).Some? ==>
              exists i: nat :: FirstPaying(details, pool, i) && details[i] == PoolDetail(details, pool).value
    decreases |details|
  {
    if details != [] {
      if details[0].address == pool {
        assert FirstPaying(details, pool, 0) && details[0] in details;
      } else {
        var rest := details[1..];
        PoolDetailIs(rest, pool);
        assert details == [details[0]] + rest;
        if PoolDetail(rest, pool).Some? {
          var i: nat :| FirstPaying(rest, pool, i) && rest[i] == PoolDetail(rest, pool).value;
          assert FirstPaying(details, pool, i + 1);
        }
      }
    }
  }

  lemma FirstIsOne(details: seq<Detail>, pool: string, i: nat, j: nat)
    requires FirstPaying(details, pool, i) && FirstPaying(details, pool, j)
    ensures i == j && !NonePaying(details, pool)
  {
    assert details[i] in details;
  }

  /** What the program makes of the replies. */
  lemma OutcomeMeans(cfg: Config, wallet: Wallet, pool: string, b: Block)
    requires cfg.magnitude > 0.0
    ensures
      var o := OutcomeOf(cfg, ClassOf(wallet.tx(b), wallet.chain(b), pool));
      && (o == Lost <==> OffChain(wallet, pool, b))
      && (o.Mature? <==> exists coin :: Matured(cfg, wallet, pool, b, coin))
      && forall coin | Matured(cfg, wallet, pool, b, coin) :: o == Mature(CoinToSat(coin, cfg.magnitude))
  {
    hide CoinToSat, FirstPaying, NonePaying;
    var reply := wallet.tx(b);
    if reply.Tx? {
      hide PoolDetail;
      if reply.confirmations >= 0 {
        MaturedIs(cfg, wallet, pool, b);
        var d := PoolDetail(reply.details, pool);
        var coin := if d.Some? then d.value.amount else reply.amount;
        assert Matured(cfg, wallet, pool, b, coin) <==>
            reply.confirmations >= cfg.minConfirmations && (d.Some? ==> !Dropped(d.value.category));
      }
    }
  }

  lemma MaturedIs(cfg: Config, wallet: Wallet, pool: string, b: Block)
    requires wallet.tx(b).Tx? && wallet.tx(b).confirmations >= 0
    ensures
      var reply := wallet.tx(b);
      var d := PoolDetail(reply.details, pool);
      && (d.Some? ==> (OffChain(wallet, pool, b) <==> Dropped(d.value.category)))
      && (d.None? ==> !OffChain(wallet, pool, b))
      && forall coin :: Matured(cfg, wallet, pool, b, coin) <==>
                          && reply.confirmations >= cfg.minConfirmations
                          && match d
                             case None => coin == reply.amount
                             case Some(x) => !Dropped(x.category) && coin == x.amount
  {
    var reply := wallet.tx(b);
    PoolDetailIs(reply.details, pool);
    hide PoolDetail;
    forall i: nat, j: nat | FirstPaying(reply.details, pool, i) && FirstPaying(reply.details, pool, j)
      ensures i == j && !NonePaying(reply.details, pool)
    {
      FirstIsOne(reply.details, pool, i, j);
    }
    hide FirstPaying, NonePaying;
  }

  // ------------------------------------------------------------------
  // What happens to a listed block
  // ------------------------------------------------------------------

  /** The block has matured and, outside pps mode, its reward has somebody to go to. */
  ghost predicate Confirms(cfg: Config, st: Store, wallet: Wallet, pool: string, b: Block)
    requires cfg.magnitude > 0.0
  {
    exists coin :: Matured(cfg, wallet, pool, b, coin)
                   && (cfg.mode == PPS || Attribute(cfg, st, b, CoinToSat(coin, cfg.magnitude)) != map[])
  }

  /** The block is off the chain, or has matured with nobody to pay. */
  ghost predicate Orphans(cfg: Config, st: Store, wallet: Wallet, pool: string, b: Block)
    requires cfg.magnitude > 0.0
  {
    || OffChain(wallet, pool, b)
    || exists coin :: Matured(cfg, wallet, pool, b, coin)
                      && cfg.mode != PPS && Attribute(cfg, st, b, CoinToSat(coin, cfg.magnitude)) == map[]
  }

  /** A block with too few confirmations, or without a usable answer, is left alone. */
  lemma ImmatureStays(cfg: Config, st: Store, wallet: Wallet, pool: string, b: Block)
    requires cfg.magnitude > 0.0 && !OffChain(wallet, pool, b)
    requires !wallet.tx(b).Tx? || wallet.tx(b).confirmations < cfg.minConfirmations
    ensures !Confirms(cfg, st, wallet, pool, b) && !Orphans(cfg, st, wallet, pool, b)
  {
    hide OffChain;
  }

  /** What a listed block earns a miner: its part of the matured reward, outside pps mode. */
  ghost function EarnedOf(cfg: Config, st: Store, wallet: Wallet, pool: string, b: Block, m: Miner): nat
    requires cfg.magnitude > 0.0
  {
    if cfg.mode != PPS && exists coin :: Matured(cfg, wallet, pool, b, coin) then
      var coin :| Matured(cfg, wallet, pool, b, coin);
      Get(Attribute(cfg, st, b, CoinToSat(coin, cfg.magnitude)), m)
    else 0
  }

  ghost function Earned(cfg: Config, st: Store, wallet: Wallet, pool: string, list: seq<Block>, m: Miner): nat
    requires cfg.magnitude > 0.0
  {
    if list == [] then 0
    else EarnedOf(cfg, st, wallet, pool, list[0], m) + Earned(cfg, st, wallet, pool, list[1..], m)
  }

  /** The blocks that a run takes. */
  ghost predicate Takes(cfg: Config, run: Run, b: Block) {
    if cfg.mode == PPS then b in run.confirmed else exists a | a in run.awards :: a.block == b
  }

  /** One turn of the loop. */
  lemma ClassifiedMoves(cfg: Config, st: Store, wallet: Wallet, pool: string, run: Run, b: Block)
    requires cfg.magnitude > 0.0
    ensures
      var o := OutcomeOf(cfg, ClassOf(wallet.tx(b), wallet.chain(b), pool));
      var next := Classified(cfg, st, run, b, o);
      && (forall x :: x in next.orphaned <==> x in run.orphaned || (x == b && Orphans(cfg, st, wallet, pool, b)))
      && (forall x :: Takes(cfg, next, x) <==> Takes(cfg, run, x) || (x == b && Confirms(cfg, st, wallet, pool, b)))
      && (forall m :: Get(next.rewards, m) == Get(run.rewards, m) + EarnedOf(cfg, st, wallet, pool, b, m))
      && next.balances == run.balances && next.hi == run.hi && (cfg.mode != PPS ==> next.confirmed == run.confirmed)
  {
    OutcomeMeans(cfg, wallet, pool, b);
    hide OutcomeOf, ClassOf, Attribute, Matured, OffChain, CoinToSat;
    var o := OutcomeOf(cfg, ClassOf(wallet.tx(b), wallet.chain(b), pool));
    MovesBy(cfg, st, wallet, pool, b, o);
    ClassifiedBy(cfg, st, run, b, o);
  }

  lemma MovesBy(cfg: Config, st: Store, wallet: Wallet, pool: string, b: Block, o: Outcome)
    requires cfg.magnitude > 0.0
    requires o == Lost <==> OffChain(wallet, pool, b)
    requires o.Mature? <==> exists coin :: Matured(cfg, wallet, pool, b, coin)
    requires forall coin | Matured(cfg, wallet, pool, b, coin) :: o == Mature(CoinToSat(coin, cfg.magnitude))
    ensures Confirms(cfg, st, wallet, pool, b) <==>
              o.Mature? && (cfg.mode == PPS || Attribute(cfg, st, b, o.reward) != map[])
    ensures Orphans(cfg, st, wallet, pool, b) <==>
              o == Lost || (o.Mature? && cfg.mode != PPS && Attribute(cfg, st, b, o.reward) == map[])
    ensures forall m :: EarnedOf(cfg, st, wallet, pool, b, m)
                        == if o.Mature? && cfg.mode != PPS then Get(Attribute(cfg, st, b, o.reward), m) else 0
  {
    hide Attribute, Matured, OffChain, CoinToSat;
  }

  lemma ClassifiedBy(cfg: Config, st: Store, run: Run, b: Block, o: Outcome)
    requires cfg.magnitude > 0.0
    ensures
      var next := Classified(cfg, st, run, b, o);
      var divides := o.Mature? && cfg.mode != PPS;
      && next.orphaned == (if o == Lost || (divides && Attribute(cfg, st, b, o.reward) == map[])
                           then run.orphaned + [b] else run.orphaned)
      && (forall x :: Takes(cfg, next, x) <==>
                        Takes(cfg, run, x)
                        || (x == b && o.Mature? && (cfg.mode == PPS || Attribute(cfg, st, b, o.reward) != map[])))
      && (forall m :: Get(next.rewards, m)
                      == Get(run.rewards, m) + if divides then Get(Attribute(cfg, st, b, o.reward), m) else 0)
      && next.balances == run.balances && next.hi == run.hi && (cfg.mode != PPS ==> next.confirmed == run.confirmed)
  {
    hide Attribute;
    var next := Classified(cfg, st, run, b, o);
    if o.Mature? && cfg.mode != PPS && Attribute(cfg, st, b, o.reward) != map[] {
      assert next.awards == run.awards + [Award(b, o.reward, Attribute(cfg, st, b, o.reward), st.log)];
      assert next.awards[|run.awards|] in next.awards;
      assert forall a :: a in next.awards <==> a in run.awards || a == next.awards[|run.awards|];
    }
  }

  /** The whole loop. */
  lemma {:induction false} ScanMoves(cfg: Config, st: Store, wallet: Wallet, pool: string, run: Run, list: seq<Block>)
    requires cfg.magnitude > 0.0
    ensures
      var after := Scanned(cfg, st, wallet, pool, run, list);
      && (forall b :: b in after.orphaned <==> b in run.orphaned || (b in list && Orphans(cfg, st, wallet, pool, b)))
      && (forall b :: Takes(cfg, after, b) <==> Takes(cfg, run, b) || (b in list && Confirms(cfg, st, wallet, pool, b)))
      && (forall m :: Get(after.rewards, m) == Get(run.rewards, m) + Earned(cfg, st, wallet, pool, list, m))
      && after.balances == run.balances && after.hi == run.hi && (cfg.mode != PPS ==> after.confirmed == run.confirmed)
    decreases |list|
  {
    hide Confirms, Orphans, Takes, EarnedOf, OutcomeOf, ClassOf, Classified;
    if list != [] {
      var o := OutcomeOf(cfg, ClassOf(wallet.tx(list[0]), wallet.chain(list[0]), pool));
      ClassifiedMoves(cfg, st, wallet, pool, run, list[0]);
      ScanMoves(cfg, st, wallet, pool, Classified(cfg, st, run, list[0], o), list[1..]);
      assert list == [list[0]] + list[1..];
    }
  }

  // ------------------------------------------------------------------
  // Which blocks a cycle moves
  // ------------------------------------------------------------------

  lemma FinishedTakes(cfg: Config, run: Run, b: Block)
    requires cfg.mode != PPS && run.confirmed == []
    ensures b in Finished(run).confirmed <==> Takes(cfg, run, b)
  {
    assert Finished(run).confirmed == AwardBlocks(run.awards);
    InAwardBlocks(run.awards, b);
  }

  lemma InAwardBlocks(awards: seq<Award>, b: Block)
    ensures b in AwardBlocks(awards) <==> exists a | a in awards :: a.block == b
  {
    var blocks := AwardBlocks(awards);
    if b in blocks {
      var i :| 0 <= i < |blocks| && blocks[i] == b;
      assert awards[i] in awards && awards[i].block == b;
    } else {
      forall a | a in awards ensures a.block != b {
        var i :| 0 <= i < |awards| && awards[i] == a;
        assert blocks[i] in blocks;
      }
    }
  }

  /** The run that a cycle settles or whose orphans it moves. */
  ghost function LastRun(cfg: Config, st: Store, list: seq<Block>, wallet: Wallet, pool: string): Run
    requires cfg.magnitude > 0.0
  {
    if cfg.mode == PPS then Scanned(cfg, st, wallet, pool, PpsRun(cfg, st), list)
    else Finished(Scanned(cfg, st, wallet, pool, NO_RUN.(balances := st.balances), list))
  }

  /** What it holds. */
  lemma LastRunIs(cfg: Config, st: Store, list: seq<Block>, wallet: Wallet, pool: string)
    requires cfg.magnitude > 0.0
    ensures
      var run := LastRun(cfg, st, list, wallet, pool);
      var start := if cfg.mode == PPS then PpsRun(cfg, st).rewards else map[];
      && (forall b :: b in run.confirmed <==> b in list && Confirms(cfg, st, wallet, pool, b))
      && (forall b :: b in run.orphaned <==> b in list && Orphans(cfg, st, wallet, pool, b))
      && (forall m :: Get(run.rewards, m) == Get(start, m) + Earned(cfg, st, wallet, pool, list, m))
      && run.balances == st.balances && run.hi == (if cfg.mode == PPS then PpsRun(cfg, st).hi else 0)
      && (run.awards == [] && cfg.mode != PPS ==> run.confirmed == [])
  {
    hide Confirms, Orphans, Earned, Scanned, PpsRewards, Totals, After, MaxSeq;
    var run0 := if cfg.mode == PPS then PpsRun(cfg, st) else NO_RUN.(balances := st.balances);
    ScanMoves(cfg, st, wallet, pool, run0, list);
    var scanned := Scanned(cfg, st, wallet, pool, run0, list);
    if cfg.mode != PPS {
      forall b ensures b in Finished(scanned).confirmed <==> b in list && Confirms(cfg, st, wallet, pool, b) {
        FinishedTakes(cfg, scanned, b);
      }
      assert scanned.awards == [] ==> AwardBlocks(scanned.awards) == [];
    }
  }

  /** Settling makes the update of some attempt, after the earlier ones were refused for their
      fees; it is committed when there was nothing to send or a txid came back, and left as an
      intent when no answer came. */
  lemma {:induction false} SettledFrom(cfg: Config, run: Run, wallet: Wallet, payable: set<Miner>, k: nat)
    requires k <= 7
    ensures
      match SettleFrom(cfg, run, wallet, payable, k)
      case Done(j) =>
        && k <= j <= 7 && RefusedForFees(cfg, run, wallet, payable, k, j)
        && (MakeUpdate(cfg, run, j, payable).paid == map[]
            || (wallet.sendmany(j).Some? && wallet.sendmany(j).value.Txid?))
      case Unanswered(j) =>
        && k <= j <= 7 && RefusedForFees(cfg, run, wallet, payable, k, j)
        && MakeUpdate(cfg, run, j, payable).paid != map[] && wallet.sendmany(j) == None
      case GaveUp =>
        exists j: nat ::
          && k <= j <= 7 && RefusedForFees(cfg, run, wallet, payable, k, j)
          && MakeUpdate(cfg, run, j, payable).paid != map[]
          && (wallet.sendmany(j) == Some(Refused) || (j == 7 && wallet.sendmany(j) == Some(Short)))
    decreases 8 - k
  {
    hide MakeUpdate;
    if MakeUpdate(cfg, run, k, payable).paid != map[] && wallet.sendmany(k) == Some(Short) && k < 7 {
      SettledFrom(cfg, run, wallet, payable, k + 1);
      assert forall j: nat :: RefusedForFees(cfg, run, wallet, payable, k + 1, j) ==>
          RefusedForFees(cfg, run, wallet, payable, k, j);
    } else {
      assert RefusedForFees(cfg, run, wallet, payable, k, k);
    }
  }

  /** Every attempt from the k-th up to the j-th had something to send and was answered -6. */
  predicate RefusedForFees(cfg: Config, run: Run, wallet: Wallet, payable: set<Miner>, k: nat, j: nat) {
    forall i: nat | k <= i < j :: MakeUpdate(cfg, run, i, payable).paid != map[] && wallet.sendmany(i) == Some(Short)
  }

  /** The update that a cycle commits or leaves in its intent: of some attempt at settling the
      run, or, with nothing matured, of its orphans alone. The intent is dropped when the wallet
      refuses for another reason than its fees, or for them on the eighth attempt. */
  lemma DecisionIs(cfg: Config, st: Store, list: seq<Block>, wallet: Wallet, pool: string, valid: map<Miner, bool>)
    returns (k: nat)
    requires cfg.magnitude > 0.0
    ensures k <= 7
    ensures
      var d, run := RunDecision(cfg, st, list, wallet, pool, valid), LastRun(cfg, st, list, wallet, pool);
      var payable := PayableIn(valid, wallet, run);
      if cfg.mode != PPS && run.awards == [] then
        if run.orphaned == [] then d == Keep else d == Commits(OrphanUpdate(run))
      else
        && !d.Keep?
        && (d.Commits? || d.LeaveIntent? ==>
              && d.update == MakeUpdate(cfg, run, k, payable) && RefusedForFees(cfg, run, wallet, payable, 0, k)
              && (d.Commits? ==> d.update.paid == map[]
                                 || (wallet.sendmany(k).Some? && wallet.sendmany(k).value.Txid?))
              && (d.LeaveIntent? ==> d.update.paid != map[] && wallet.sendmany(k) == None))
        && (d.DropIntent? ==> exists j: nat ::
              && j <= 7 && RefusedForFees(cfg, run, wallet, payable, 0, j)
              && MakeUpdate(cfg, run, j, payable).paid != map[]
              && (wallet.sendmany(j) == Some(Refused) || (j == 7 && wallet.sendmany(j) == Some(Short))))
  {
    hide MakeUpdate, PayableIn, SettleFrom, Scanned, RefusedForFees;
    var run := LastRun(cfg, st, list, wallet, pool);
    var payable := PayableIn(valid, wallet, run);
    SettledFrom(cfg, run, wallet, payable, 0);
    k := match SettleFrom(cfg, run, wallet, payable, 0) case Done(j) => j case Unanswered(j) => j case GaveUp => 0;
    if cfg.mode != PPS { FinishedNothing(cfg, st, list, wallet, pool); }
  }

  lemma FinishedNothing(cfg: Config, st: Store, list: seq<Block>, wallet: Wallet, pool: string)
    requires cfg.magnitude > 0.0 && cfg.mode != PPS
    ensures
      var scanned := Scanned(cfg, st, wallet, pool, NO_RUN.(balances := st.balances), list);
      && LastRun(cfg, st, list, wallet, pool).awards == scanned.awards
      && LastRun(cfg, st, list, wallet, pool).orphaned == scanned.orphaned
      && (scanned.awards == [] ==> OrphanUpdate(LastRun(cfg, st, list, wallet, pool)) == OrphanUpdate(scanned))
      && (list == [] ==> scanned.awards == [] && scanned.orphaned == [])
  {
    hide Classified;
    var scanned := Scanned(cfg, st, wallet, pool, NO_RUN.(balances := st.balances), list);
    if scanned.awards == [] {
      assert Finished(scanned) == scanned;
    }
  }

  /** A block enters the committed update's confirmed list exactly if it is listed, the wallet
      has it matured, and its reward has somebody to go to or the mode is pps; it enters the
      orphaned list exactly if it is listed and off the chain or matured for nobody; and
      otherwise, in particular with too few confirmations, it stays where it is. */
  lemma CycleMoves(cfg: Config, st: Store, list: seq<Block>, wallet: Wallet, pool: string, valid: map<Miner, bool>)
    requires cfg.magnitude > 0.0
    ensures
      var d := RunDecision(cfg, st, list, wallet, pool, valid);
      && (d.Commits? || d.LeaveIntent? ==>
            && (forall b :: b in d.update.confirmed <==> b in list && Confirms(cfg, st, wallet, pool, b))
            && (forall b :: b in d.update.orphaned <==> b in list && Orphans(cfg, st, wallet, pool, b)))
      && (d.Keep? ==> forall b | b in list ::
            !Confirms(cfg, st, wallet, pool, b) && !Orphans(cfg, st, wallet, pool, b))
  {
    hide RunDecision, LastRun, Confirms, Orphans, Earned, PayableIn, MakeUpdate, RefusedForFees, PpsRun;
    var k := DecisionIs(cfg, st, list, wallet, pool, valid);
    LastRunIs(cfg, st, list, wallet, pool);
    var run := LastRun(cfg, st, list, wallet, pool);
    UpdateKeys(cfg, run, k, PayableIn(valid, wallet, run));
  }

  /** The rounds deleted are those at the heights of the blocks that move. */
  ghost predicate AtTheirHeights(moved: seq<Block>, heights: seq<nat>) {
    forall h :: h in heights <==> exists b | b in moved :: b.height == h
  }

  lemma OneMoves(run: Run, moved: seq<Block>, b: Block)
    requires AtTheirHeights(moved, run.deleteRounds)
    ensures AtTheirHeights(moved + [b], run.deleteRounds + [b.height])
  {
    assert b in moved + [b];
    assert forall x :: x in moved + [b] <==> x in moved || x == b;
    assert forall h :: h in run.deleteRounds + [b.height] <==> h in run.deleteRounds || h == b.height;
  }

  lemma SameMoves(moved: seq<Block>, other: seq<Block>, heights: seq<nat>)
    requires AtTheirHeights(moved, heights) && forall b :: b in moved <==> b in other
    ensures AtTheirHeights(other, heights)
  {
  }

  lemma ClassifiedDeletes(cfg: Config, st: Store, run: Run, b: Block, o: Outcome)
    requires cfg.magnitude > 0.0 && AtTheirHeights(run.confirmed + run.orphaned, run.deleteRounds)
    ensures
      var next := Classified(cfg, st, run, b, o);
      AtTheirHeights(next.confirmed + next.orphaned, next.deleteRounds)
  {
    hide Attribute, AtTheirHeights;
    var next, moved := Classified(cfg, st, run, b, o), run.confirmed + run.orphaned;
    OneMoves(run, moved, b);
    SameMoves(moved + [b], run.confirmed + (run.orphaned + [b]), run.deleteRounds + [b.height]);
    SameMoves(moved + [b], (run.confirmed + [b]) + run.orphaned, run.deleteRounds + [b.height]);
  }

  lemma {:induction false} ScanDeletes(cfg: Config, st: Store, wallet: Wallet, pool: string, run: Run,
                                       list: seq<Block>)
    requires cfg.magnitude > 0.0 && AtTheirHeights(run.confirmed + run.orphaned, run.deleteRounds)
    ensures
      var after := Scanned(cfg, st, wallet, pool, run, list);
      AtTheirHeights(after.confirmed + after.orphaned, after.deleteRounds)
    decreases |list|
  {
    hide AtTheirHeights, OutcomeOf, ClassOf, Classified;
    if list != [] {
      var o := OutcomeOf(cfg, ClassOf(wallet.tx(list[0]), wallet.chain(list[0]), pool));
      ClassifiedDeletes(cfg, st, run, list[0], o);
      ScanDeletes(cfg, st, wallet, pool, Classified(cfg, st, run, list[0], o), list[1..]);
    }
  }

  lemma FinishedDeletes(run: Run)
    requires AtTheirHeights(run.confirmed + run.orphaned, run.deleteRounds)
    ensures AtTheirHeights(Finished(run).confirmed + Finished(run).orphaned, Finished(run).deleteRounds)
  {
    var blocks := AwardBlocks(run.awards);
    HeightsAre(blocks);
    BothMove(run.confirmed + run.orphaned, blocks, run.deleteRounds, Heights(blocks));
    hide AtTheirHeights, AwardBlocks, Heights;
    SameMoves((run.confirmed + run.orphaned) + blocks, (run.confirmed + blocks) + run.orphaned,
              run.deleteRounds + Heights(blocks));
  }

  lemma HeightsAre(blocks: seq<Block>)
    ensures AtTheirHeights(blocks, Heights(blocks))
  {
    forall h ensures h in Heights(blocks) <==> exists b | b in blocks :: b.height == h {
      if h in Heights(blocks) {
        var i :| 0 <= i < |blocks| && Heights(blocks)[i] == h;
        assert blocks[i] in blocks;
      }
      if b :| b in blocks && b.height == h {
        var i :| 0 <= i < |blocks| && blocks[i] == b;
        assert Heights(blocks)[i] == h;
      }
    }
  }

  lemma BothMove(a: seq<Block>, b: seq<Block>, p: seq<nat>, q: seq<nat>)
    requires AtTheirHeights(a, p) && AtTheirHeights(b, q)
    ensures AtTheirHeights(a + b, p + q)
  {
    assert forall x :: x in a + b <==> x in a || x in b;
    assert forall h :: h in p + q <==> h in p || h in q;
  }

  /** The rounds that a cycle deletes are exactly those at the heights of the blocks it moves. */
  lemma CycleDeletes(cfg: Config, st: Store, list: seq<Block>, wallet: Wallet, pool: string, valid: map<Miner, bool>)
    requires cfg.magnitude > 0.0
    ensures
      var d := RunDecision(cfg, st, list, wallet, pool, valid);
      d.Commits? || d.LeaveIntent? ==> AtTheirHeights(d.update.confirmed + d.update.orphaned, d.update.deleteRounds)
  {
    hide RunDecision, AtTheirHeights, Scanned, Finished, PayableIn, MakeUpdate, RefusedForFees;
    hide PpsRewards, Totals, After, MaxSeq;
    var k := DecisionIs(cfg, st, list, wallet, pool, valid);
    var run := LastRun(cfg, st, list, wallet, pool);
    NothingMoves();
    var run0 := if cfg.mode == PPS then PpsRun(cfg, st) else NO_RUN.(balances := st.balances);
    ScanDeletes(cfg, st, wallet, pool, run0, list);
    FinishedDeletes(Scanned(cfg, st, wallet, pool, run0, list));
    UpdateKeys(cfg, run, k, PayableIn(valid, wallet, run));
  }

  lemma NothingMoves()
    ensures AtTheirHeights([] + [], [])
  {
  }

  // ------------------------------------------------------------------
  // What it credits
  // ------------------------------------------------------------------

  /** With the update m's balance and payments grow by what is given. */
  predicate Gains(st: Store, u: Update, m: Miner, gain: int) {
    (if m in u.balances then u.balances[m] else Get(st.balances, m)) + Get(u.paid, m) == Get(st.balances, m) + gain
  }

  lemma RunGains(cfg: Config, st: Store, run: Run, k: nat, payable: set<Miner>, m: Miner)
    requires run.balances == st.balances
    ensures Gains(st, MakeUpdate(cfg, run, k, payable), m, Get(run.rewards, m))
  {
    UpdateKeys(cfg, run, k, payable);
    if m in Workers(run) { UpdateAt(cfg, run, k, payable, m); }
    hide MakeUpdate, Sent;
  }

  lemma {:induction false} NobodyEarns(cfg: Config, st: Store, list: seq<Block>, wallet: Wallet, pool: string, m: Miner)
    requires cfg.magnitude > 0.0 && cfg.mode != PPS
    requires forall b | b in list :: !Confirms(cfg, st, wallet, pool, b)
    ensures Earned(cfg, st, wallet, pool, list, m) == 0
  {
    if list != [] {
      assert list[0] in list;
      NothingEarned(cfg, st, wallet, pool, list[0], m);
      hide Confirms, EarnedOf;
      NobodyEarns(cfg, st, list[1..], wallet, pool, m);
    }
  }

  lemma NothingEarned(cfg: Config, st: Store, wallet: Wallet, pool: string, b: Block, m: Miner)
    requires cfg.magnitude > 0.0 && cfg.mode != PPS && !Confirms(cfg, st, wallet, pool, b)
    ensures EarnedOf(cfg, st, wallet, pool, b, m) == 0
  {
    hide Matured, Attribute;
  }

  /** Outside pps mode each miner gains exactly its parts of the listed rewards that matured,
      each taken from the first detail that pays the pool. */
  lemma CycleGains(cfg: Config, st: Store, list: seq<Block>, wallet: Wallet, pool: string, valid: map<Miner, bool>)
    requires cfg.magnitude > 0.0 && cfg.mode != PPS
    ensures
      var d := RunDecision(cfg, st, list, wallet, pool, valid);
      d.Commits? || d.LeaveIntent? ==>
        && d.update.cursor == 0
        && forall m :: Gains(st, d.update, m, Earned(cfg, st, wallet, pool, list, m))
  {
    hide RunDecision, LastRun, Confirms, Orphans, Earned, PayableIn, MakeUpdate, RefusedForFees, PpsRun, Gains;
    var d := RunDecision(cfg, st, list, wallet, pool, valid);
    var k := DecisionIs(cfg, st, list, wallet, pool, valid);
    LastRunIs(cfg, st, list, wallet, pool);
    var run := LastRun(cfg, st, list, wallet, pool);
    UpdateKeys(cfg, run, k, PayableIn(valid, wallet, run));
    forall m ensures d.Commits? || d.LeaveIntent? ==> Gains(st, d.update, m, Earned(cfg, st, wallet, pool, list, m)) {
      if run.awards == [] {
        NobodyEarns(cfg, st, list, wallet, pool, m);
        OrphansGain(st, run, m);
      } else {
        RunGains(cfg, st, run, k, PayableIn(valid, wallet, run), m);
      }
    }
  }

  lemma OrphansGain(st: Store, run: Run, m: Miner)
    ensures Gains(st, OrphanUpdate(run), m, 0)
  {
  }

  lemma {:induction false} NothingInPps(cfg: Config, st: Store, list: seq<Block>, wallet: Wallet, pool: string,
                                        m: Miner)
    requires cfg.magnitude > 0.0 && cfg.mode == PPS
    ensures Earned(cfg, st, wallet, pool, list, m) == 0
  {
    if list != [] {
      NothingInPps(cfg, st, list[1..], wallet, pool, m);
    }
  }

  /** The work of the shares logged since the cursor, at the pps rate, in base units. */
  ghost function RateOf(cfg: Config, es: seq<Entry>, m: Miner): real {
    MinerWork(es, m) * cfg.ppsRate * cfg.magnitude
  }

  /** With the update m gains that, rounded to the nearest unit. */
  ghost predicate GainsRate(cfg: Config, st: Store, u: Update, es: seq<Entry>, m: Miner) {
    exists gain: int :: Gains(st, u, m, gain) && NearestUnits(gain, RateOf(cfg, es, m))
  }

  lemma RewardIsRate(cfg: Config, es: seq<Entry>, m: Miner)
    requires cfg.magnitude > 0.0
    ensures NearestUnits(Get(PpsRewards(cfg, Totals(es)), m), RateOf(cfg, es, m))
  {
    hide *;
    TotalIs(es, m);
    NearestReward(cfg, MinerWork(es, m));
    RewardOn(cfg, Totals(es), m);
    assert RateOf(cfg, es, m) == MinerWork(es, m) * cfg.ppsRate * cfg.magnitude by { RateIs(cfg, es, m); }
  }

  lemma RateIs(cfg: Config, es: seq<Entry>, m: Miner)
    ensures RateOf(cfg, es, m) == MinerWork(es, m) * cfg.ppsRate * cfg.magnitude
  {
  }

  lemma TotalIs(es: seq<Entry>, m: Miner)
    ensures GetReal(Totals(es), m) == MinerWork(es, m)
  {
    TotalsAreMinerWork(es);
  }

  lemma RewardOn(cfg: Config, work: map<Miner, real>, m: Miner)
    requires cfg.magnitude > 0.0
    ensures m in work ==> GetReal(work, m) == work[m] && Get(PpsRewards(cfg, work), m) == PpsReward(cfg, work[m])
    ensures m !in work ==> GetReal(work, m) == 0.0 && Get(PpsRewards(cfg, work), m) == 0
  {
    hide PpsReward;
  }

  lemma NearestReward(cfg: Config, work: real)
    requires cfg.magnitude > 0.0
    ensures NearestUnits(PpsReward(cfg, work), work * cfg.ppsRate * cfg.magnitude)
    ensures NearestUnits(0, 0.0 * cfg.ppsRate * cfg.magnitude)
  {
    CoinsAreNearest(work * cfg.ppsRate, cfg.magnitude);
  }

  /** In pps mode each miner gains its work since the cursor at the rate, rounded to the nearest
      unit, and the cursor moves to the newest share. */
  lemma CyclePaysRate(cfg: Config, st: Store, list: seq<Block>, wallet: Wallet, pool: string, valid: map<Miner, bool>)
    requires cfg.magnitude > 0.0 && cfg.mode == PPS
    ensures
      var d, newer := RunDecision(cfg, st, list, wallet, pool, valid), After(st.log, st.cursor);
      d.Commits? || d.LeaveIntent? ==>
        && (forall m :: GainsRate(cfg, st, d.update, newer, m))
        && (forall e | e in newer :: e.seqNo <= d.update.cursor)
        && (d.update.cursor == st.cursor || exists e | e in newer :: e.seqNo == d.update.cursor)
  {
    hide RunDecision, LastRun, Confirms, Orphans, Earned, PayableIn, MakeUpdate, RefusedForFees, Gains, NearestUnits;
    hide RateOf, PpsRewards, Totals, After, MaxSeq;
    var d, newer := RunDecision(cfg, st, list, wallet, pool, valid), After(st.log, st.cursor);
    var k := DecisionIs(cfg, st, list, wallet, pool, valid);
    LastRunIs(cfg, st, list, wallet, pool);
    var run := LastRun(cfg, st, list, wallet, pool);
    UpdateKeys(cfg, run, k, PayableIn(valid, wallet, run));
    NewestOf(newer, st.cursor);
    if d.Commits? || d.LeaveIntent? {
      forall m ensures GainsRate(cfg, st, d.update, newer, m) {
        NothingInPps(cfg, st, list, wallet, pool, m);
        RunGains(cfg, st, run, k, PayableIn(valid, wallet, run), m);
        RewardIsRate(cfg, newer, m);
        assert Gains(st, d.update, m, Get(run.rewards, m));
      }
    }
  }

  lemma {:induction false} NewestOf(es: seq<Entry>, cursor: nat)
    ensures forall e | e in es :: e.seqNo <= MaxSeq(es, cursor)
    ensures MaxSeq(es, cursor) == cursor || exists e | e in es :: e.seqNo == MaxSeq(es, cursor)
    ensures MaxSeq(es, cursor) >= cursor
  {
    if es != [] {
      var init, last := es[..|es| - 1], es[|es| - 1];
      NewestOf(init, cursor);
      assert es == init + [last];
      if last.seqNo > MaxSeq(init, cursor) {
        assert last in es;
      } else if MaxSeq(init, cursor) != cursor {
        var e :| e in init && e.seqNo == MaxSeq(init, cursor);
        assert e in es;
      }
    }
  }

  // ------------------------------------------------------------------
  // What it sends
  // ------------------------------------------------------------------

  /** Of what a miner is owed, an attempt that withholds a fraction sends the whole units that
      are left, if they reach the minimum payment and the miner can be paid, and nothing
      otherwise. */
  predicate SendsPart(cfg: Config, owed: int, withhold: real, payable: bool, paid: map<Miner, nat>, m: Miner) {
    var left := owed as real * (1.0 - withhold);
    if m in paid then
      && payable && paid[m] >= 1 && paid[m] >= cfg.minPayment
      && paid[m] as real <= left < paid[m] as real + 1.0
    else !payable || left < 1.0 || left < cfg.minPayment as real
  }

  lemma AttemptSends(cfg: Config, run: Run, k: nat, payable: set<Miner>, m: Miner)
    requires m in Workers(run) && k <= 7
    ensures
      var u := MakeUpdate(cfg, run, k, payable);
      && m in u.balances && u.balances[m] + Get(u.paid, m) == Get(run.balances, m) + Get(run.rewards, m)
      && SendsPart(cfg, u.balances[m] + Get(u.paid, m), Withhold(k), m in payable, u.paid, m)
  {
    hide *;
    UpdateAt(cfg, run, k, payable, m);
    AtMostEightAttempts(k);
    WithholdNonNegative(k);
    var u, n := MakeUpdate(cfg, run, k, payable), Sent(cfg, run, k, payable, m);
    var toSend := ToSend(Owed(run, m), Withhold(k));
    SentIs(cfg, run, k, payable, m, toSend);
    PartLeft(Owed(run, m), Withhold(k));
    PaidOr(u.paid, m);
    PartSent(cfg, Owed(run, m), Withhold(k), m in payable, toSend, u.paid, m);
    OwedIs(run, m);
  }

  lemma PaidOr(paid: map<Miner, nat>, m: Miner)
    ensures Get(paid, m) == if m in paid then paid[m] else 0
  {
  }

  lemma OwedIs(run: Run, m: Miner)
    ensures Owed(run, m) == Get(run.balances, m) + Get(run.rewards, m)
  {
  }

  lemma PartSent(cfg: Config, owed: nat, w: real, payable: bool, toSend: nat, paid: map<Miner, nat>, m: Miner)
    requires toSend as real <= owed as real * (1.0 - w) < toSend as real + 1.0
    requires var n := if toSend >= cfg.minPayment && toSend > 0 && payable then toSend else 0;
             if n > 0 then m in paid && paid[m] == n else m !in paid
    ensures SendsPart(cfg, owed, w, payable, paid, m)
  {
    var left := owed as real * (1.0 - w);
    assert toSend < cfg.minPayment ==> left < cfg.minPayment as real;
  }

  lemma PartLeft(owed: nat, w: real)
    requires 0.0 <= w <= 1.0
    ensures
      var left := owed as real * (1.0 - w);
      ToSend(owed, w) as real <= left < ToSend(owed, w) as real + 1.0
  {
    assert owed as real * (1.0 - w) >= 0.0;
  }

  /** At most the fraction f of the whole. */
  predicate AtMostPart(f: real, part: int, whole: int) {
    part as real <= f * whole as real
  }

  /** All payments of an attempt together leave at least the withheld fraction of what is owed. */
  lemma AttemptWithholds(cfg: Config, run: Run, k: nat, payable: set<Miner>)
    requires k <= 7
    ensures
      var u := MakeUpdate(cfg, run, k, payable);
      AtMostPart(1.0 - Withhold(k), Total(u.paid), Total(u.balances) + Total(u.paid))
  {
    hide *;
    var u := MakeUpdate(cfg, run, k, payable);
    UpdateKeys(cfg, run, k, payable);
    forall m | m in u.balances
      ensures AtMostPart(1.0 - Withhold(k), Get(u.paid, m), u.balances[m] + Get(u.paid, m))
    {
      AttemptSends(cfg, run, k, payable, m);
      NotNegative(u.paid, m);
      PaidWithin(cfg, u.balances[m] + Get(u.paid, m), k, m in payable, u.paid, m);
    }
    SumWithin(u.balances.Keys, u.paid, u.balances, 1.0 - Withhold(k));
    SumOverSuperset(u.balances.Keys, u.paid);
    WholeSum(u.balances);
  }

  lemma NotNegative(amounts: map<Miner, nat>, m: Miner)
    ensures Get(amounts, m) >= 0
  {
  }

  lemma WholeSum(amounts: map<Miner, nat>)
    ensures Total(amounts) == SumOver(amounts.Keys, amounts)
  {
  }

  lemma PaidWithin(cfg: Config, owed: int, k: nat, payable: bool, paid: map<Miner, nat>, m: Miner)
    requires k <= 7 && owed >= 0 && SendsPart(cfg, owed, Withhold(k), payable, paid, m)
    ensures AtMostPart(1.0 - Withhold(k), Get(paid, m), owed)
  {
    AtMostEightAttempts(k);
    hide Withhold;
    NoNegativeProduct(1.0 - Withhold(k), owed as real);
  }

  lemma {:induction false} SumWithin(keys: set<Miner>, paid: map<Miner, nat>, balances: map<Miner, nat>, f: real)
    requires forall m | m in keys :: m in balances && AtMostPart(f, Get(paid, m), balances[m] + Get(paid, m))
    ensures AtMostPart(f, SumOver(keys, paid), SumOver(keys, balances) + SumOver(keys, paid))
    decreases |keys|
  {
    hide AtMostPart;
    if keys == {} {
      Nothing(f);
    } else {
      var m :| m in keys;
      var rest := keys - {m};
      SumOverPick(keys, paid, m);
      SumOverPick(keys, balances, m);
      SumWithin(rest, paid, balances, f);
      var b, p := SumOver(rest, balances), SumOver(rest, paid);
      Within(f, p, Get(paid, m), b + p, balances[m] + Get(paid, m));
      assert SumOver(keys, balances) + SumOver(keys, paid) == (b + p) + (balances[m] + Get(paid, m));
    }
  }

  lemma Nothing(f: real)
    ensures AtMostPart(f, 0, 0)
  {
  }

  lemma Within(f: real, p: int, q: int, x: int, y: int)
    requires AtMostPart(f, p, x) && AtMostPart(f, q, y)
    ensures AtMostPart(f, q + p, x + y)
  {
    Distribute(f, x, y);
  }

  lemma NoNegativeProduct(x: real, y: real)
    requires x >= 0.0 && y >= 0.0
    ensures x * y == y * x >= 0.0
  {
  }

  lemma Distribute(f: real, x: int, y: int)
    ensures f * (x + y) as real == f * x as real + f * y as real
  {
  }

  /** The update sends what the k-th attempt may, and leaves the fee in the wallet. */
  ghost predicate SendsOnAttempt(cfg: Config, wallet: Wallet, valid: map<Miner, bool>, u: Update, k: nat) {
    && (forall m | m in u.paid :: m in u.balances)
    && (forall m | m in u.balances ::
          SendsPart(cfg, u.balances[m] + Get(u.paid, m), Withhold(k),
                    if m in valid then valid[m] else wallet.payable(m), u.paid, m))
    && AtMostPart(1.0 - Withhold(k), Total(u.paid), Total(u.balances) + Total(u.paid))
    && (forall j: nat | j < k :: wallet.sendmany(j) == Some(Short))
  }

  /** Every committed update, and every one left in an intent, sends on the first attempt that
      was not refused for its fees: 0%, 1%, 2%, 4%, 8%, 16%, 32% or 64% withheld. */
  lemma CycleSends(cfg: Config, st: Store, list: seq<Block>, wallet: Wallet, pool: string, valid: map<Miner, bool>)
    requires cfg.magnitude > 0.0
    ensures
      var d := RunDecision(cfg, st, list, wallet, pool, valid);
      d.Commits? || d.LeaveIntent? ==> exists k: nat :: k <= 7 && SendsOnAttempt(cfg, wallet, valid, d.update, k)
  {
    hide RunDecision, LastRun, PayableIn, MakeUpdate, RefusedForFees, Withhold, SendsOnAttempt;
    var d := RunDecision(cfg, st, list, wallet, pool, valid);
    var k := DecisionIs(cfg, st, list, wallet, pool, valid);
    var run := LastRun(cfg, st, list, wallet, pool);
    var payable := PayableIn(valid, wallet, run);
    if d.Commits? || d.LeaveIntent? {
      if cfg.mode != PPS && run.awards == [] {
        NothingSent(cfg, wallet, valid, run);
      } else {
        SettledSends(cfg, wallet, valid, run, k);
      }
    }
  }

  lemma NothingSent(cfg: Config, wallet: Wallet, valid: map<Miner, bool>, run: Run)
    ensures SendsOnAttempt(cfg, wallet, valid, OrphanUpdate(run), 0)
  {
    hide Withhold;
    assert Total<Miner>(map[]) == 0;
  }

  lemma SettledSends(cfg: Config, wallet: Wallet, valid: map<Miner, bool>, run: Run, k: nat)
    requires k <= 7 && RefusedForFees(cfg, run, wallet, PayableIn(valid, wallet, run), 0, k)
    ensures SendsOnAttempt(cfg, wallet, valid, MakeUpdate(cfg, run, k, PayableIn(valid, wallet, run)), k)
  {
    hide MakeUpdate, Withhold, SendsPart, Workers, PayableIn;
    var payable := PayableIn(valid, wallet, run);
    var u := MakeUpdate(cfg, run, k, payable);
    UpdateKeys(cfg, run, k, payable);
    AttemptWithholds(cfg, run, k, payable);
    forall m | m in u.balances
      ensures SendsPart(cfg, u.balances[m] + Get(u.paid, m), Withhold(k),
                        if m in valid then valid[m] else wallet.payable(m), u.paid, m)
    {
      AttemptSends(cfg, run, k, payable, m);
      MayPay(wallet, valid, run, m);
    }
  }

  lemma MayPay(wallet: Wallet, valid: map<Miner, bool>, run: Run, m: Miner)
    requires m in Workers(run)
    ensures m in PayableIn(valid, wallet, run) <==> if m in valid then valid[m] else wallet.payable(m)
  {
  }
}
