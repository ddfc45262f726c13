/** Which shares every block reward was divided by: the round that the block closed, or the
    window that ends at its mark, in every reachable state. */
module Awards {
  import opened Shares
  import opened Ledger
  import opened Protocol
  import opened Invariant
  import opened Safety
  import opened Guarantees

  /** The rewards that the payer's run has divided so far. */
  function InRun(p: Payer): seq<Award> {
    match p
    case Seeded(run) => run.awards
    case Scan(run, _) => run.awards
    case Planning(run, _) => run.awards
    case Persisted(run, _, _) => run.awards
    case Awaiting(run, _, _) => run.awards
    case _ => []
  }

  /** Committed, planned or still in the making. */
  predicate Held(s: Sys, a: Award) {
    a in s.awards || a in s.plan.awards || a in InRun(s.payer)
  }

  predicate PaysByRound(cfg: Config) {
    cfg.mode == Prop || (cfg.mode == PPLNS && cfg.window <= 0.0)
  }

  predicate PaysByWindow(cfg: Config) {
    cfg.mode == PPLNS && cfg.window > 0.0
  }

  /** The i-th seal at the block's height came with the block's share or a later one, and the
      reward is split over the round that it closed. */
  ghost predicate SplitsRound(a: Award, tally: seq<Entry>, seals: seq<Seal>, i: nat) {
    && i < |seals| && seals[i].height == a.block.height && seals[i].lo < seals[i].hi <= |tally|
    && tally[seals[i].hi - 1].seqNo >= a.block.mark
    && a.dist == SplitByShares(a.reward, Totals(RoundShares(tally, seals[i])))
  }

  /** The log held the newest of the first n shares, at least cap of them or all, the block's
      own share among the n; and the reward is split over the window in that log. */
  ghost predicate SplitsWindow(cfg: Config, a: Award, hist: seq<Entry>, n: nat) {
    && |a.log| <= n <= |hist| && IsTail(a.log, hist[..n])
    && (|a.log| >= cfg.cap || |a.log| == n)
    && a.block.mark <= Top(hist[..n])
    && a.dist == SplitByShares(a.reward, WindowShares(a.log, a.block.mark, cfg.window))
  }

  ghost predicate Earned(cfg: Config, a: Award, hist: seq<Entry>, tally: seq<Entry>, seals: seq<Seal>) {
    && cfg.mode != PPS
    && (PaysByRound(cfg) ==> exists i: nat :: SplitsRound(a, tally, seals, i))
    && (PaysByWindow(cfg) ==> exists n: nat :: SplitsWindow(cfg, a, hist, n))
  }

  ghost predicate AllEarned(cfg: Config, s: Sys) {
    forall a | Held(s, a) :: Earned(cfg, a, s.hist, s.tally, s.seals)
  }

  // ------------------------------------------------------------------
  // Later shares and rounds change nothing
  // ------------------------------------------------------------------

  lemma EarnedStays(cfg: Config, a: Award, s: Sys, t: Sys)
    requires Earned(cfg, a, s.hist, s.tally, s.seals)
    requires s.hist <= t.hist && s.tally <= t.tally && s.seals <= t.seals
    ensures Earned(cfg, a, t.hist, t.tally, t.seals)
  {
    hide SplitByShares, Totals, WindowShares, Top, IsTail;
    if PaysByRound(cfg) {
      var i: nat :| SplitsRound(a, s.tally, s.seals, i);
      assert RoundShares(t.tally, t.seals[i]) == RoundShares(s.tally, s.seals[i]);
      assert SplitsRound(a, t.tally, t.seals, i);
    }
    if PaysByWindow(cfg) {
      var n: nat :| SplitsWindow(cfg, a, s.hist, n);
      assert t.hist[..n] == s.hist[..n];
      assert SplitsWindow(cfg, a, t.hist, n);
    }
  }

  lemma HistoriesGrow(cfg: Config, s: Sys, step: Step)
    requires cfg.magnitude > 0.0 && Enabled(cfg, s, step)
    ensures s.hist <= Do(cfg, s, step).hist && s.tally <= Do(cfg, s, step).tally && s.seals <= Do(cfg, s, step).seals
  {
    hide Commit, MakeUpdate, Classified, Finished, OrphanUpdate, PpsRewards, Listing, WriterExec, Withhold, Recordable;
    match step
    case WExec => WriterGrows(cfg, s);
    case _ =>
  }

  lemma WriterGrows(cfg: Config, s: Sys)
    requires s.writer.Busy?
    ensures
      var t := WriterExec(cfg, s);
      s.hist <= t.hist && s.tally <= t.tally && s.seals <= t.seals
  {
    hide Exec;
  }

  // ------------------------------------------------------------------
  // One step
  // ------------------------------------------------------------------

  /** The reward that a Classify step divides. */
  ghost predicate Divides(cfg: Config, s: Sys, step: Step, a: Award) {
    && step.Classify? && step.outcome.Mature? && s.payer.Scan? && s.payer.todo != [] && cfg.mode != PPS
    && a.dist != map[]
    && a == Award(s.payer.todo[0], step.outcome.reward, Attribute(cfg, s.store, s.payer.todo[0], step.outcome.reward),
         s.store.log)
  }

  lemma HeldBefore(cfg: Config, s: Sys, step: Step, a: Award)
    requires cfg.magnitude > 0.0 && Enabled(cfg, s, step) && Held(Do(cfg, s, step), a)
    ensures Held(s, a) || Divides(cfg, s, step, a)
  {
    CommittedBefore(cfg, s, step);
    PlannedBefore(cfg, s, step);
    RunBefore(cfg, s, step);
    hide Do, Divides, Classified;
    if step.Classify? { ClassifyDivides(cfg, s, step.outcome, a); }
  }

  /** What is committed was planned. */
  lemma CommittedBefore(cfg: Config, s: Sys, step: Step)
    requires cfg.magnitude > 0.0 && Enabled(cfg, s, step)
    ensures
      var t := Do(cfg, s, step);
      t.awards == if step.Apply? || step.ResumeApply? then s.awards + s.plan.awards else s.awards
  {
    hide Commit, MakeUpdate, OrphanUpdate, PpsRewards, Listing, WriterExec, Withhold, Classified, Finished;
    hide Recordable, Totals, After, MaxSeq, StampTxid;
    if step.WExec? { WriterLeaves(cfg, s); }
  }

  /** What is planned was in the run. */
  lemma PlannedBefore(cfg: Config, s: Sys, step: Step)
    requires cfg.magnitude > 0.0 && Enabled(cfg, s, step)
    ensures
      var t := Do(cfg, s, step);
      t.plan == s.plan || t.plan.awards == InRun(s.payer)
  {
    hide Commit, MakeUpdate, OrphanUpdate, PpsRewards, Listing, WriterExec, Withhold, Classified, Finished;
    hide Recordable, Totals, After, MaxSeq, StampTxid;
    if step.WExec? { WriterLeaves(cfg, s); }
  }

  lemma WriterLeaves(cfg: Config, s: Sys)
    requires s.writer.Busy?
    ensures WriterExec(cfg, s).awards == s.awards && WriterExec(cfg, s).plan == s.plan
    ensures WriterExec(cfg, s).payer == s.payer
  {
    hide Exec;
  }

  lemma AwardsFinished(run: Run)
    ensures Finished(run).awards == run.awards
  {
  }

  /** The rewards in the payer's run stay, are gone, or are added to by Classify. */
  lemma RunBefore(cfg: Config, s: Sys, step: Step)
    requires cfg.magnitude > 0.0 && Enabled(cfg, s, step)
    ensures
      var after := InRun(Do(cfg, s, step).payer);
      if step.Classify? then after == Classified(cfg, s.store, s.payer.run, s.payer.todo[0], step.outcome).awards
      else after == InRun(s.payer) || after == []
  {
    hide Commit, MakeUpdate, OrphanUpdate, PpsRewards, Listing, WriterExec, Withhold, Classified, Finished, Recordable;
    hide Totals, After, MaxSeq, StampTxid;
    if step.WExec? {
      WriterLeaves(cfg, s);
    } else if step.FinishScan? {
      AwardsFinished(s.payer.run);
    }
  }

  lemma ClassifyDivides(cfg: Config, s: Sys, o: Outcome, a: Award)
    requires cfg.magnitude > 0.0 && s.payer.Scan? && s.payer.todo != []
    ensures a in Classified(cfg, s.store, s.payer.run, s.payer.todo[0], o).awards ==>
              a in s.payer.run.awards || Divides(cfg, s, Classify(o), a)
  {
    hide Attribute, AddPaid;
  }

  /** What a step divides, it divides by the block's round or window. */
  lemma DividedIsEarned(cfg: Config, s: Sys, step: Step, a: Award)
    requires cfg.magnitude > 0.0 && Inv(cfg, s) && Divides(cfg, s, step, a)
    ensures Earned(cfg, a, s.hist, s.tally, s.seals)
  {
    hide RoundInv, CountedInv, BlockInv, LogInv, WriterInv, LedgerInv, CreditInv, IntentInv, WalletInv;
    hide SplitByShares, Totals, WindowShares;
    var b := a.block;
    assert b in s.store.pending by {
      hide Attribute;
      ScansPending(cfg, s);
    }
    if PaysByRound(cfg) {
      RoundIsEarned(cfg, s, a);
    }
    if PaysByWindow(cfg) {
      LogIsNewest(cfg, s, b);
      assert SplitsWindow(cfg, a, s.hist, |s.hist|);
    }
  }

  lemma RoundIsEarned(cfg: Config, s: Sys, a: Award)
    requires cfg.magnitude > 0.0 && Inv(cfg, s) && a.block in s.store.pending
    requires a.dist == SplitByShares(a.reward, RoundContrib(s.store, a.block.height)) && a.dist != map[]
    ensures exists i: nat :: SplitsRound(a, s.tally, s.seals, i)
  {
    hide Inv, SplitByShares, Totals, RoundInv, HoldsRound, SealsOk, Increasing;
    NothingToSplit(a.reward);
    var b := a.block;
    RoundsOf(cfg, s);
    RoundsInOrder(s.store, s.tally, s.seals, s.dropped);
    assert SolvedBy(s.tally, s.seals, b);
    var i: nat :| SolvedAt(s.tally, s.seals, b, i);
    var j := TakenOver(s.store, s.tally, s.seals, s.dropped, b, i);
    hide BlockInv;
    HeldSeal(s.seals, s.dropped, b.height, j);
    SealAt(s.tally, s.seals, j);
    if i < j { SealMarks(s.tally, s.seals, i, j); }
    assert SplitsRound(a, s.tally, s.seals, j);
  }

  lemma ScansPending(cfg: Config, s: Sys)
    requires cfg.magnitude > 0.0 && PayerInv(cfg, s) && s.payer.Scan? && s.payer.todo != []
    ensures s.payer.todo[0] in s.store.pending
  {
    hide RunOk, Distinct, HeightSet;
    assert s.payer.todo[0] in s.payer.todo;
  }

  lemma LogIsNewest(cfg: Config, s: Sys, b: Block)
    requires cfg.magnitude > 0.0 && Inv(cfg, s) && b in s.store.pending && cfg.mode != PPS
    ensures
      var n := |s.hist|;
      && |s.store.log| <= n && IsTail(s.store.log, s.hist[..n])
      && (|s.store.log| >= cfg.cap || |s.store.log| == n)
      && b.mark <= Top(s.hist[..n])
  {
    hide LogInv, RoundInv, CountedInv, BlockInv, WriterInv, LedgerInv, CreditInv, IntentInv, WalletInv, PayerInv;
    PendingFound(s, b);
    MarkLogged(cfg, s, b);
    NewestPart(cfg, s.store.log, s.store.lastSeq, s.store.cursor, s.hist);
    hide Inv, Increasing, IsTail;
    assert s.hist[..|s.hist|] == s.hist;
  }

  lemma PendingFound(s: Sys, b: Block)
    requires BlockInv(s.store, s.tally, s.seals, s.dropped, s.found) && b in s.store.pending
    ensures b in s.found
  {
    hide SolvedBy, SettledHeight;
  }

  lemma StepKeepsEarned(cfg: Config, s: Sys, step: Step)
    requires cfg.magnitude > 0.0 && Inv(cfg, s) && Enabled(cfg, s, step) && AllEarned(cfg, s)
    ensures AllEarned(cfg, Do(cfg, s, step))
  {
    hide Inv, Do, Enabled, Held, Earned;
    var t := Do(cfg, s, step);
    HistoriesGrow(cfg, s, step);
    forall a | Held(t, a) ensures Earned(cfg, a, t.hist, t.tally, t.seals) {
      HeldBefore(cfg, s, step, a);
      if !Held(s, a) { DividedIsEarned(cfg, s, step, a); }
      EarnedStays(cfg, a, s, t);
    }
  }

  // ------------------------------------------------------------------
  // Every run
  // ------------------------------------------------------------------

  lemma {:induction false} RunKeepsEarned(cfg: Config, s: Sys, steps: seq<Step>)
    requires cfg.magnitude > 0.0 && Inv(cfg, s) && CanRun(cfg, s, steps) && AllEarned(cfg, s)
    ensures AllEarned(cfg, RunFrom(cfg, s, steps))
    decreases |steps|
  {
    hide Inv, Do, Enabled, AllEarned;
    if steps != [] {
      StepKeepsInv(cfg, s, steps[0]);
      StepKeepsEarned(cfg, s, steps[0]);
      RunKeepsEarned(cfg, Do(cfg, s, steps[0]), steps[1..]);
    }
  }

  lemma ReachableEarned(cfg: Config, s: Sys)
    requires cfg.magnitude > 0.0 && Reachable(cfg, s)
    ensures AllEarned(cfg, s)
  {
    hide Inv, Do, Enabled, Earned;
    var steps :| CanRun(cfg, INIT, steps) && RunFrom(cfg, INIT, steps) == s;
    InitInv(cfg);
    RunKeepsEarned(cfg, INIT, steps);
  }

  /** In prop mode, and in pplns mode without a window, every committed reward was split over
      exactly the shares of a round sealed at the block's height, no earlier than its own; over
      its own, the shares between the previous seal and the share that found it, unless another
      round was sealed at that height later. */
  lemma AwardPaysItsRound(cfg: Config, s: Sys, a: Award) returns (own: nat, i: nat)
    requires cfg.magnitude > 0.0 && Reachable(cfg, s) && a in s.awards && PaysByRound(cfg)
    ensures SolvedAt(s.tally, s.seals, a.block, own) && own <= i < |s.seals| && s.seals[i].height == a.block.height
    ensures s.seals[i].lo == SealedBefore(s.seals, i) && s.seals[i].lo < s.seals[i].hi <= |s.tally|
    ensures a.dist == SplitByShares(a.reward, Totals(s.tally[s.seals[i].lo..s.seals[i].hi]))
    ensures LastSeal(s.seals, a.block.height, own) ==> i == own
  {
    hide Reachable, SplitByShares, Totals, Inv, RoundInv, BlockInv, SealsOk, Increasing;
    ReachableInv(cfg, s);
    ReachableEarned(cfg, s);
    assert Held(s, a);
    hide AllEarned;
    i :| SplitsRound(a, s.tally, s.seals, i);
    RoundsOf(cfg, s);
    RoundsInOrder(s.store, s.tally, s.seals, s.dropped);
    own := AwardedIsFound(cfg, s, a);
    SealAt(s.tally, s.seals, i);
    if i < own { SealMarks(s.tally, s.seals, i, own); }
  }

  lemma AwardedIsFound(cfg: Config, s: Sys, a: Award) returns (i: nat)
    requires cfg.magnitude > 0.0 && Inv(cfg, s) && a in s.awards
    ensures SolvedAt(s.tally, s.seals, a.block, i)
  {
    hide LogInv, RoundInv, CountedInv, WriterInv, CreditInv, IntentInv, WalletInv, PayerInv;
    hide AwardsOk, AwardSum, CreditSum, SettledHeight, SolvedAt;
    var k :| 0 <= k < |s.awards| && s.awards[k] == a;
    assert AwardBlocks(s.awards)[k] == a.block;
    assert a.block in s.found;
    assert SolvedBy(s.tally, s.seals, a.block);
    i :| SolvedAt(s.tally, s.seals, a.block, i);
  }

  /** In pplns mode every committed reward was split over the window of the full share history
      that ends at the block's mark, if that window lay within the newest cap of the n shares
      logged when the reward was divided; and in any case over the window in the newest part of
      those n shares that the log held. */
  lemma AwardPaysItsWindow(cfg: Config, s: Sys, a: Award) returns (n: nat)
    requires cfg.magnitude > 0.0 && Reachable(cfg, s) && a in s.awards && PaysByWindow(cfg)
    ensures SplitsWindow(cfg, a, s.hist, n)
    ensures n - WindowStart(UpTo(s.hist, a.block.mark), cfg.window) <= cfg.cap ==>
              a.dist == SplitByShares(a.reward, WindowShares(s.hist, a.block.mark, cfg.window))
  {
    hide Reachable, SplitByShares, WindowShares, WindowStart, UpTo, Top;
    ReachableInv(cfg, s);
    ReachableEarned(cfg, s);
    assert Held(s, a);
    n :| SplitsWindow(cfg, a, s.hist, n);
    if n - WindowStart(UpTo(s.hist, a.block.mark), cfg.window) <= cfg.cap {
      SameWindow(cfg, s, a, n);
    }
  }

  lemma SameWindow(cfg: Config, s: Sys, a: Award, n: nat)
    requires cfg.magnitude > 0.0 && Inv(cfg, s) && SplitsWindow(cfg, a, s.hist, n)
    requires n - WindowStart(UpTo(s.hist, a.block.mark), cfg.window) <= cfg.cap
    ensures WindowShares(a.log, a.block.mark, cfg.window) == WindowShares(s.hist, a.block.mark, cfg.window)
  {
    hide LogInv, RoundInv, CountedInv, BlockInv, WriterInv, IntentInv, PayerInv, WalletInv, LedgerInv, CreditInv;
    hide WindowStart, UpTo, WindowShares, SplitByShares, Increasing, Top, IsTail;
    Clauses(cfg, s);
    NumbersIncrease(cfg, s.store.log, s.store.lastSeq, s.store.cursor, s.hist);
    hide Inv;
    var mark, window := a.block.mark, cfg.window;
    LaterAbove(s.hist, n, mark);
    TailWindow(s.hist[..n], a.log, mark, window);
    SameSelection(s.hist[..n], s.hist, mark, window);
  }

  lemma NumbersIncrease(cfg: Config, log: seq<Entry>, lastSeq: nat, cursor: nat, hist: seq<Entry>)
    requires LogInv(cfg, log, lastSeq, cursor, hist)
    ensures Increasing(hist) && forall e | e in hist :: e.seqNo > 0
  {
    hide Increasing, AllNonNegative, IsTail;
  }

  lemma SameSelection(a: seq<Entry>, b: seq<Entry>, mark: int, window: real)
    requires UpTo(a, mark) == UpTo(b, mark)
    ensures WindowShares(a, mark, window) == WindowShares(b, mark, window)
  {
    hide UpTo, WindowStart, Totals;
  }

  /** Of the shares after the first n none is selected up to a mark among the first n. */
  lemma LaterAbove(hist: seq<Entry>, n: nat, mark: int)
    requires Increasing(hist) && n <= |hist| && mark <= Top(hist[..n]) && forall x | x in hist :: x.seqNo > 0
    ensures UpTo(hist[..n], mark) == UpTo(hist, mark) && Increasing(hist[..n])
  {
    hide UpTo;
    var early, later := hist[..n], hist[n..];
    forall e | e in later ensures e.seqNo > mark {
      AboveTop(hist, n, e);
    }
    assert Increasing(early);
    hide Increasing, Top;
    assert hist == early + later;
    UpToConcat(early, later, mark);
    AfterAll(later, mark);
    assert UpTo(early, mark) + [] == UpTo(early, mark);
  }

  lemma AboveTop(hist: seq<Entry>, n: nat, e: Entry)
    requires Increasing(hist) && n <= |hist| && e in hist[n..] && forall x | x in hist :: x.seqNo > 0
    ensures e.seqNo > Top(hist[..n])
  {
    var i :| 0 <= i < |hist[n..]| && hist[n..][i] == e;
    assert hist[n + i] == e;
  }
}
