/** Runs of the protocol that get somewhere: a found block is recorded, and from every state
    with an idle payer any pending block can be settled. */
module Completion {
  import opened Prelude
  import opened Shares
  import opened Ledger
  import opened Protocol
  import opened Invariant
  import opened Safety
  import opened Guarantees
  import opened Storage
  import opened Payer

  predicate SolvesBlock(share: Share) {
    share.valid && share.hasBlock && share.diff >= 0.0 && Recordable(share, true)
  }

  // ------------------------------------------------------------------
  // A block is found
  // ------------------------------------------------------------------

  /** The round key when the share closes the open round. */
  function ClosedBy(current: map<Miner, real>, share: Share): map<Miner, real> {
    Credit(current, share.miner, share.diff)
  }

  /** The writer's turns for a share that found an accepted block. */
  lemma BlockRecorded(cfg: Config, s: Sys, share: Share) returns (steps: seq<Step>, t: Sys)
    requires cfg.magnitude > 0.0 && SolvesBlock(share) && s.writer.Free? && s.store.lastSeq + 1 < TWO_TO_THE_63
    ensures Leads(cfg, s, steps, t)
    ensures
      var n := s.store.lastSeq + 1;
      && t.store == s.store.(lastSeq := n, log := t.store.log, current := map[],
                             rounds := s.store.rounds[share.height := ClosedBy(s.store.current, share)],
                             pending := s.store.pending + {FoundBlock(share, n)})
      && t == s.(store := t.store, hist := t.hist, tally := s.tally + [EntryOf(share, n)],
                 seals := s.seals + [Seal(share.height, OpenAt(s.seals), |s.tally| + 1)],
                 found := s.found + {FoundBlock(share, n)})
  {
    hide Leads, OpenAt;
    steps, t := TakeShare(cfg, s, share, true);
    var n := s.store.lastSeq + 1;
    steps, t := TakeLogging(cfg, s, steps, t);
    steps, t := TakeClosing(cfg, s, steps, t);
  }

  /** Logging the share and trimming the log. */
  lemma TakeLogging(cfg: Config, s: Sys, steps0: seq<Step>, t0: Sys) returns (steps: seq<Step>, t: Sys)
    requires cfg.magnitude > 0.0 && Leads(cfg, s, steps0, t0) && t0.writer.Busy? && t0.writer.stage == ToLog
    ensures Leads(cfg, s, steps, t)
    ensures t == t0.(store := t0.store.(log := t.store.log), hist := t.hist, writer := t0.writer.(stage := ToCount))
  {
    hide Leads, ZAdd, KeepNewest;
    steps, t := TakeCommand(cfg, s, steps0, t0);
    if cfg.mode != PPS {
      steps, t := TakeCommand(cfg, s, steps, t);
    }
  }

  /** Counting the share, sealing its round, adding its block. */
  lemma TakeClosing(cfg: Config, s: Sys, steps0: seq<Step>, t0: Sys) returns (steps: seq<Step>, t: Sys)
    requires cfg.magnitude > 0.0 && Leads(cfg, s, steps0, t0)
    requires t0.writer.Busy? && t0.writer.stage == ToCount && t0.writer.share.hasBlock && t0.writer.accepted
    ensures Leads(cfg, s, steps, t)
    ensures
      var share, n := t0.writer.share, t0.writer.seqNo;
      && t.store == t0.store.(current := map[],
                              rounds := t0.store.rounds[share.height := ClosedBy(t0.store.current, share)],
                              pending := t0.store.pending + {FoundBlock(share, n)})
      && t == t0.(store := t.store, writer := Free, tally := t0.tally + [EntryOf(share, n)],
                  seals := t0.seals + [Seal(share.height, OpenAt(t0.seals), |t0.tally| + 1)],
                  found := t0.found + {FoundBlock(share, n)})
  {
    hide Leads, OpenAt;
    var w, closed := t0.writer, ClosedBy(t0.store.current, t0.writer.share);
    steps, t := TakeCommand(cfg, s, steps0, t0);
    assert t == t0.(store := t0.store.(current := closed), writer := w.(stage := ToSeal),
                    tally := t0.tally + [EntryOf(w.share, w.seqNo)]);
    assert w.share.miner in closed;
    steps, t := TakeCommand(cfg, s, steps, t);
    assert t.writer == w.(stage := ToAdd);
    steps, t := TakeCommand(cfg, s, steps, t);
  }

  /** Two blocks at one height, the second closing its round before the first is settled: the
      round of the first is renamed over, and prop mode splits both rewards over the second's
      share alone. */
  lemma RoundOverwritten(cfg: Config, first: Share, second: Share, reward: nat) returns (s: Sys)
    requires cfg.magnitude > 0.0 && cfg.mode == Prop
    requires SolvesBlock(first) && SolvesBlock(second) && first.height == second.height
    ensures Reachable(cfg, s) && s.store.pending == {FoundBlock(first, 1), FoundBlock(second, 2)}
    ensures s.store.rounds == map[first.height := map[second.miner := second.diff]]
    ensures forall b | b in s.store.pending ::
              Attribute(cfg, s.store, b, reward) == SplitByShares(reward, map[second.miner := second.diff])
  {
    hide Leads, OpenAt, SplitByShares;
    var steps, t := BlockRecorded(cfg, INIT, first);
    var more, next := BlockRecorded(cfg, t, second);
    steps, s := TakeMore(cfg, INIT, steps, t, more, next);
    assert ClosedBy(map[], second) == map[second.miner := second.diff];
    LeadsReaches(cfg, steps, s);
  }

  // ------------------------------------------------------------------
  // A block is settled
  // ------------------------------------------------------------------

  /** Every block that is left is kept pending. */
  lemma {:induction false} TakeRetries(cfg: Config, s: Sys, steps0: seq<Step>, t0: Sys)
    returns (steps: seq<Step>, t: Sys)
    requires cfg.magnitude > 0.0 && Leads(cfg, s, steps0, t0) && t0.payer.Scan?
    ensures Leads(cfg, s, steps, t) && t == t0.(payer := Scan(t0.payer.run, []))
    decreases |t0.payer.todo|
  {
    hide Leads;
    steps, t := steps0, t0;
    if t0.payer.todo != [] {
      steps, t := TakeClassify(cfg, s, steps, t, Retry);
      steps, t := TakeRetries(cfg, s, steps, t);
    }
  }

  lemma TakeCommit(cfg: Config, s: Sys, steps0: seq<Step>, t0: Sys) returns (steps: seq<Step>, t: Sys)
    requires cfg.magnitude > 0.0 && Leads(cfg, s, steps0, t0) && t0.payer.Committing?
    ensures Leads(cfg, s, steps, t) && t == Committed(t0, t0.payer.u).(payer := Idle)
  {
    hide Committed;
    steps, t := Take(cfg, s, steps0, t0, Apply);
  }

  lemma CommitDropsKey(st: Store, key: IntentKey, u: Update)
    ensures Commit(st.(intent := key), u) == Commit(st, u)
  {
    hide AddPaid, After;
  }

  /** The update that pays every worker what is owed, as far as the minimum payment allows. */
  function FullUpdate(cfg: Config, run: Run): Update {
    MakeUpdate(cfg, run, 0, Workers(run))
  }

  /** A wallet that pays everybody lets the first attempt succeed. */
  lemma PlanSettles(cfg: Config, s: Sys) returns (steps: seq<Step>, t: Sys)
    requires cfg.magnitude > 0.0 && s.payer.Planning? && s.payer.attempt == 0 && s.net == Quiet
    ensures Leads(cfg, s, steps, t) && t.payer == Idle && t.net == Quiet && t.writer == s.writer
    ensures t.store == Commit(s.store, FullUpdate(cfg, s.payer.run)) && t.awards == s.awards + s.payer.run.awards
  {
    hide Leads, MakeUpdate, Commit;
    var run := s.payer.run;
    var u := FullUpdate(cfg, run);
    steps, t := TakePlan(cfg, s, Workers(run));
    if u.paid != map[] {
      var more, next := TakeSend(cfg, t);
      steps, t := TakeMore(cfg, s, steps, t, more, next);
      steps, t := TakeReply(cfg, s, steps, t, Txid("txid"));
      steps, t := TakeStamp(cfg, s, steps, t);
    }
    var key := t.store.intent;
    assert t.store == s.store.(intent := key) && t.plan == run;
    CommitDropsKey(s.store, key, u);
    steps, t := TakeCommit(cfg, s, steps, t);
  }

  /** The run that takes one matured block. */
  ghost function BlockRun(cfg: Config, st: Store, b: Block, reward: nat): Run
    requires cfg.magnitude > 0.0
  {
    var start := if cfg.mode == PPS then PpsRun(cfg, st) else NO_RUN.(balances := st.balances);
    Classified(cfg, st, start, b, Mature(reward))
  }

  /** What that run commits. */
  ghost function BlockUpdate(cfg: Config, st: Store, b: Block, reward: nat): Update
    requires cfg.magnitude > 0.0
  {
    var run := BlockRun(cfg, st, b, reward);
    if cfg.mode == PPS then FullUpdate(cfg, run)
    else if run.awards == [] then OrphanUpdate(run)
    else FullUpdate(cfg, Finished(run))
  }

  /** All pending blocks, the given one first. */
  lemma ListFrom(pending: set<Block>, b: Block) returns (list: seq<Block>)
    requires b in pending
    ensures Elems(list) == pending && |list| == |pending| && list != [] && list[0] == b
  {
    list := [b];
    var todo := pending - {b};
    while todo != {}
      invariant todo <= pending && Elems(list) == pending - todo && |list| + |todo| == |pending|
      invariant list != [] && list[0] == b
      decreases |todo|
    {
      var x :| x in todo;
      ElemsSnoc(list, x);
      list := list + [x];
      todo := todo - {x};
    }
  }

  /** From a ready payer: the node has matured one pending block and nothing to say about the
      others. */
  lemma PendingSettles(cfg: Config, s: Sys, b: Block, reward: nat) returns (steps: seq<Step>, t: Sys)
    requires cfg.magnitude > 0.0 && s.payer == Ready && s.net == Quiet && b in s.store.pending
    ensures Leads(cfg, s, steps, t) && t.payer == Idle && t.net == Quiet && t.writer == s.writer
    ensures t.store == Commit(s.store, BlockUpdate(cfg, s.store, b, reward))
    ensures t.awards == s.awards + BlockRun(cfg, s.store, b, reward).awards
  {
    hide Leads, MakeUpdate, Commit, Classified, Finished, OrphanUpdate, PpsRewards, Totals, After, MaxSeq;
    var list := ListFrom(s.store.pending, b);
    steps, t := TakeToScan(cfg, s, list);
    steps, t := TakeClassify(cfg, s, steps, t, Mature(reward));
    steps, t := TakeRetries(cfg, s, steps, t);
    var run := BlockRun(cfg, s.store, b, reward);
    assert t == s.(payer := Scan(run, []));
    BlockRunShape(cfg, s.store, b, reward);
    var more, next := TakeFinish(cfg, t);
    steps, t := TakeMore(cfg, s, steps, t, more, next);
    if t.payer.Planning? {
      AwardsFinished(run);
      more, next := PlanSettles(cfg, t);
      steps, t := TakeMore(cfg, s, steps, t, more, next);
    } else {
      steps, t := TakeCommit(cfg, s, steps, t);
    }
  }

  lemma AwardsFinished(run: Run)
    ensures Finished(run).awards == run.awards
  {
  }

  /** Listing the blocks, and in pps mode reading the shares before that. */
  lemma TakeToScan(cfg: Config, s: Sys, list: seq<Block>) returns (steps: seq<Step>, t: Sys)
    requires cfg.magnitude > 0.0 && s.payer == Ready && Listing(s.store, list) && list != []
    ensures Leads(cfg, s, steps, t)
    ensures
      var start := if cfg.mode == PPS then PpsRun(cfg, s.store) else NO_RUN.(balances := s.store.balances);
      t == s.(payer := Scan(start, list))
  {
    hide Leads, PpsRewards, Totals, After, MaxSeq, Listing;
    if cfg.mode == PPS {
      steps, t := TakeReads(cfg, s);
      steps, t := TakeListPps(cfg, s, steps, t, list);
    } else {
      steps, t := TakeList(cfg, s, list);
      steps, t := TakeSeed(cfg, s, steps, t);
    }
  }

  /** The run holds just the one block, confirmed, awarded or orphaned. */
  lemma BlockRunShape(cfg: Config, st: Store, b: Block, reward: nat)
    requires cfg.magnitude > 0.0
    ensures
      var run, dist := BlockRun(cfg, st, b, reward), Attribute(cfg, st, b, reward);
      && run.balances == st.balances
      && run.awards == (if cfg.mode != PPS && dist != map[] then [Award(b, reward, dist, st.log)] else [])
      && run.orphaned == (if cfg.mode != PPS && dist == map[] then [b] else [])
      && run.confirmed == (if cfg.mode == PPS then [b] else [])
  {
    hide Attribute, AddPaid, PpsRewards, Totals, After, MaxSeq;
  }

  /** Where the block ends up. */
  lemma BlockLands(cfg: Config, st: Store, b: Block, reward: nat)
    requires cfg.magnitude > 0.0 && b in st.pending
    ensures
      var after := Commit(st, BlockUpdate(cfg, st, b, reward));
      var paid := cfg.mode == PPS || Attribute(cfg, st, b, reward) != map[];
      && after.pending == st.pending - {b} && after.intent == NoIntent
      && after.confirmed == (if paid then st.confirmed + {b} else st.confirmed)
      && after.orphaned == (if paid then st.orphaned else st.orphaned + {b})
  {
    BlockUpdateLists(cfg, st, b, reward);
    hide BlockUpdate, Attribute, AddPaid, After;
  }

  lemma BlockUpdateLists(cfg: Config, st: Store, b: Block, reward: nat)
    requires cfg.magnitude > 0.0
    ensures
      var u, paid := BlockUpdate(cfg, st, b, reward), cfg.mode == PPS || Attribute(cfg, st, b, reward) != map[];
      u.confirmed == (if paid then [b] else []) && u.orphaned == (if paid then [] else [b])
  {
    BlockRunShape(cfg, st, b, reward);
    hide BlockRun, Attribute, MakeUpdate;
    var run := BlockRun(cfg, st, b, reward);
    AwardBlocksOf(run);
    UpdateKeys(cfg, run, 0, Workers(run));
    UpdateKeys(cfg, Finished(run), 0, Workers(Finished(run)));
  }

  lemma AwardBlocksOf(run: Run)
    ensures run.awards == [] ==> AwardBlocks(run.awards) == []
    ensures |run.awards| == 1 ==> AwardBlocks(run.awards) == [run.awards[0].block]
    ensures [] + AwardBlocks(run.awards) == AwardBlocks(run.awards)
  {
  }

  /** After a full settlement nobody is owed the minimum payment. */
  lemma NobodyOwed(cfg: Config, st: Store, run: Run)
    requires run.balances == st.balances
    ensures
      var after := Commit(st, FullUpdate(cfg, run)).balances;
      forall m | m in after :: after[m] == 0 || after[m] < cfg.minPayment
  {
    hide AddPaid, After;
    var u := FullUpdate(cfg, run);
    UpdateKeys(cfg, run, 0, Workers(run));
    forall m | m in u.balances ensures u.balances[m] == 0 || u.balances[m] < cfg.minPayment {
      OwedOrSent(cfg, run, m);
    }
  }

  lemma OwedOrSent(cfg: Config, run: Run, m: Miner)
    requires m in Workers(run)
    ensures
      var left := Owed(run, m) - Sent(cfg, run, 0, Workers(run), m);
      left == 0 || left < cfg.minPayment
  {
    assert ToSend(Owed(run, m), Withhold(0)) == Owed(run, m);
  }

  /** In every mode, from every reachable state with an idle payer, a quiet network and no
      intent that needs the operator, some run settles any given pending block: confirmed if
      there is anybody to pay its reward to, as there need not be in pps mode, else orphaned. A
      stamped intent is completed first; without one, the reward is divided as Attribute says
      and nobody is left who is owed the minimum payment. */
  lemma AnyBlockSettles(cfg: Config, s: Sys, b: Block, reward: nat) returns (steps: seq<Step>, t: Sys)
    requires cfg.magnitude > 0.0 && Reachable(cfg, s) && s.payer.Idle? && s.net == Quiet && b in s.store.pending
    requires s.store.intent.Intent? ==> s.store.intent.txid != ""
    ensures Leads(cfg, s, steps, t) && t.payer.Idle? && t.net == Quiet && t.store.intent == NoIntent
    ensures b !in t.store.pending && (b in t.store.confirmed || b in t.store.orphaned)
    ensures s.store.intent == NoIntent ==>
              var dist := Attribute(cfg, s.store, b, reward);
              && (b in t.store.confirmed <==> cfg.mode == PPS || dist != map[])
              && t.awards == s.awards
                   + (if cfg.mode != PPS && dist != map[] then [Award(b, reward, dist, s.store.log)] else [])
              && (cfg.mode == PPS || dist != map[] ==>
                    forall m | m in t.store.balances ::
                        t.store.balances[m] == 0 || t.store.balances[m] < cfg.minPayment)
  {
    hide Leads, Reachable, Commit, BlockUpdate, BlockRun, Attribute;
    ReadyState(cfg, s);
    steps, t := TakeReconcile(cfg, s);
    if s.store.intent == NoIntent {
      var more, next := PendingSettles(cfg, t, b, reward);
      steps, t := TakeMore(cfg, s, steps, t, more, next);
      BlockLands(cfg, s.store, b, reward);
      BlockRunShape(cfg, s.store, b, reward);
      if cfg.mode == PPS || Attribute(cfg, s.store, b, reward) != map[] { BlockPays(cfg, s.store, b, reward); }
    } else {
      var u := s.store.intent.update;
      steps, t := TakeApply(cfg, s, steps, t);
      CommitMoves(s.store, u, b);
      if b in t.store.pending {
        var st := t.store;
        var more, next := PendingSettles(cfg, t, b, reward);
        steps, t := TakeMore(cfg, s, steps, t, more, next);
        BlockLands(cfg, st, b, reward);
      } else {
        steps, t := TakeAbort(cfg, s, steps, t);
      }
    }
  }

  lemma ReadyState(cfg: Config, s: Sys)
    requires cfg.magnitude > 0.0 && Reachable(cfg, s)
    ensures !s.store.intent.Torn? && s.store.pending !! s.store.confirmed
  {
    hide LogInv, RoundInv, CountedInv, BlockInv, WriterInv, PayerInv, WalletInv, LedgerInv, CreditInv, PlanOk;
    hide UpdateOk, Reachable;
    ReachableInv(cfg, s);
    PendingApart(s);
  }

  lemma CommitMoves(st: Store, u: Update, b: Block)
    requires b in st.pending
    ensures
      var after := Commit(st, u);
      (b in after.pending || b in after.confirmed || b in after.orphaned) && after.intent == NoIntent
  {
    hide AddPaid, After;
  }

  lemma BlockPays(cfg: Config, st: Store, b: Block, reward: nat)
    requires cfg.magnitude > 0.0 && (cfg.mode == PPS || Attribute(cfg, st, b, reward) != map[])
    ensures
      var after := Commit(st, BlockUpdate(cfg, st, b, reward)).balances;
      forall m | m in after :: after[m] == 0 || after[m] < cfg.minPayment
  {
    BlockRunShape(cfg, st, b, reward);
    hide BlockRun, Attribute, Commit, MakeUpdate, FullUpdate;
    var run := BlockRun(cfg, st, b, reward);
    NobodyOwed(cfg, st, if cfg.mode == PPS then run else Finished(run));
  }

  // ------------------------------------------------------------------
  // From the empty store to a payout
  // ------------------------------------------------------------------

  /** In solo mode the finder of a mature block is sent its reward, once. */
  lemma PayoutCompletes(cfg: Config, share: Share, reward: nat) returns (s: Sys)
    requires cfg.magnitude > 0.0 && cfg.mode == Solo && SolvesBlock(share) && share.miner != ""
    requires reward > 0 && reward >= cfg.minPayment
    ensures Reachable(cfg, s) && s.payer == Idle && s.store.intent == NoIntent
    ensures s.store.payouts == map[share.miner := reward] && s.store.balances == map[share.miner := 0]
    ensures s.store.confirmed == {FoundBlock(share, 1)} && s.store.pending == {}
    ensures WalletSum(s.wallet, share.miner) == reward
  {
    hide Leads, WalletSum, Reachable, Commit, BlockUpdate, BlockRun, OpenAt, Inv;
    var b := FoundBlock(share, 1);
    var steps, t := BlockRecorded(cfg, INIT, share);
    var found := t.store;
    var more, next := TakeReconcile(cfg, t);
    steps, t := TakeMore(cfg, INIT, steps, t, more, next);
    more, next := PendingSettles(cfg, t, b, reward);
    steps, s := TakeMore(cfg, INIT, steps, t, more, next);
    BlockLands(cfg, found, b, reward);
    SoloPays(cfg, found, b, reward);
    LeadsReaches(cfg, steps, s);
    PaidExactlyOnce(cfg, s);
  }

  lemma SoloPays(cfg: Config, st: Store, b: Block, reward: nat)
    requires cfg.magnitude > 0.0 && cfg.mode == Solo && b.finder != "" && reward > 0 && reward >= cfg.minPayment
    requires st.balances == map[] && st.payouts == map[]
    ensures
      var after := Commit(st, BlockUpdate(cfg, st, b, reward));
      after.payouts == map[b.finder := reward] && after.balances == map[b.finder := 0]
  {
    var dist := map[b.finder := reward];
    assert b.finder in dist;
    BlockRunShape(cfg, st, b, reward);
    AddPaidNothing(dist);
    var run := Finished(BlockRun(cfg, st, b, reward));
    assert run.rewards == dist;
    WholeReward(cfg, run, b.finder, reward);
    hide BlockRun, MakeUpdate, Attribute, Finished, After;
    var u := BlockUpdate(cfg, st, b, reward);
    assert u.paid == dist && u.balances == map[b.finder := 0];
    AddPaidNothing(u.paid);
  }

  lemma LeadsReaches(cfg: Config, steps: seq<Step>, s: Sys)
    requires cfg.magnitude > 0.0 && Leads(cfg, INIT, steps, s)
    ensures Reachable(cfg, s)
  {
  }
}
