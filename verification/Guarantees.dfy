/** What the invariant means for the pool: statements about every reachable state and
    every run, in the terms of payments, blocks, rounds and shares. */
module Guarantees {
  import opened Prelude
  import opened Shares
  import opened Ledger
  import opened Protocol
  import opened Invariant
  import opened Safety

  // ------------------------------------------------------------------
  // Exactly-once payout
  // ------------------------------------------------------------------

  /** Amounts of the intent that was broadcast and not yet applied. */
  function InFlight(s: Sys): Update {
    if s.sent && s.store.intent.Intent? then s.store.intent.update else Update(map[], map[], [], [], [], 0)
  }

  /** No two broadcasts settle a common block or share; what the wallet sent to a miner is
      its recorded payouts plus at most the one intent that was sent and not yet applied. */
  lemma PaidExactlyOnce(cfg: Config, s: Sys)
    requires cfg.magnitude > 0.0 && Reachable(cfg, s)
    ensures forall i, j | 0 <= i < j < |s.wallet| ::
              s.wallet[i].blocks !! s.wallet[j].blocks && s.wallet[i].hi <= s.wallet[j].lo
    ensures s.store.intent.Intent? && s.store.intent.txid != "" ==> s.sent
    ensures s.sent ==> s.store.intent.Intent? && s.wallet != [] && s.wallet[|s.wallet| - 1].paid == InFlight(s).paid
    ensures forall m: Miner :: WalletSum(s.wallet, m) == Get(s.store.payouts, m) + Get(InFlight(s).paid, m)
  {
    hide *;
    ReachableInv(cfg, s);
    Clauses(cfg, s);
    StampedIsSent(cfg, s);
    WalletFacts(s);
    Disjoint(s.wallet);
  }

  lemma StampedIsSent(cfg: Config, s: Sys)
    requires cfg.magnitude > 0.0 && IntentInv(cfg, s)
    ensures s.store.intent.Intent? && s.store.intent.txid != "" ==> s.sent
  {
    hide PlanOk, UpdateOk;
  }

  lemma Disjoint(wallet: seq<Broadcast>)
    requires ExactlyOnce(wallet)
    ensures forall i, j | 0 <= i < j < |wallet| ::
              wallet[i].blocks !! wallet[j].blocks && wallet[i].hi <= wallet[j].lo
  {
  }

  lemma WalletFacts(s: Sys)
    requires WalletInv(s)
    ensures ExactlyOnce(s.wallet)
    ensures s.sent ==> s.store.intent.Intent? && s.wallet != [] && s.wallet[|s.wallet| - 1].paid == InFlight(s).paid
    ensures forall m: Miner :: WalletSum(s.wallet, m) == Get(s.store.payouts, m) + Get(InFlight(s).paid, m)
  {
    hide WalletSum, ExactlyOnce;
  }

  /** What a miner will carry over once the intent in flight is applied. */
  function CarriedOver(s: Sys, m: Miner): int {
    if m in InFlight(s).balances then InFlight(s).balances[m] else Get(s.store.balances, m)
  }

  /** What the run behind the intent in flight earns a miner. */
  function EarnedInFlight(cfg: Config, s: Sys, m: Miner): int
    requires cfg.magnitude > 0.0
  {
    if s.sent then AwardSum(s.plan.awards, m) + Get(PpsRewards(cfg, s.plan.work), m) else 0
  }

  /** What the wallet sent a miner plus what it carries over is what its confirmed blocks and
      credited shares earned, those of the one intent in flight included. */
  lemma NeverOverpaid(cfg: Config, s: Sys, m: Miner)
    requires cfg.magnitude > 0.0 && Reachable(cfg, s)
    ensures WalletSum(s.wallet, m) + CarriedOver(s, m)
            == AwardSum(s.awards, m) + CreditSum(cfg, s.credits, m) + EarnedInFlight(cfg, s, m)
    ensures CarriedOver(s, m) >= 0
  {
    hide *;
    ReachableInv(cfg, s);
    Clauses(cfg, s);
    PaidExactlyOnce(cfg, s);
    SentIsEarned(cfg, s, m);
  }

  lemma SentIsEarned(cfg: Config, s: Sys, m: Miner)
    requires cfg.magnitude > 0.0 && LedgerInv(cfg, s.store, s.awards, s.credits) && IntentInv(cfg, s)
    requires WalletSum(s.wallet, m) == Get(s.store.payouts, m) + Get(InFlight(s).paid, m)
    requires s.sent ==> s.store.intent.Intent?
    ensures WalletSum(s.wallet, m) + CarriedOver(s, m)
            == AwardSum(s.awards, m) + CreditSum(cfg, s.credits, m) + EarnedInFlight(cfg, s, m)
    ensures CarriedOver(s, m) >= 0
  {
    hide WalletSum, AwardSum, CreditSum, PpsRewards, AwardsOk, AwardOk, RangeOk, Distinct, HeightSet;
    assert Get(s.store.balances, m) + Get(s.store.payouts, m) == AwardSum(s.awards, m) + CreditSum(cfg, s.credits, m);
  }

  /** While an intent without a txid is left over, nothing more is sent. */
  ghost predicate Halted(s0: Sys, s: Sys) {
    && s.payer.Idle?
    && s.store.intent == s0.store.intent
    && s.store.payouts == s0.store.payouts && s.store.balances == s0.store.balances
    && s.store.confirmed == s0.store.confirmed && s.store.orphaned == s0.store.orphaned
    && s.store.cursor == s0.store.cursor
    && (s.net.Request? ==> s0.net == s.net && s.wallet == s0.wallet)
    && (s.wallet == s0.wallet
        || (s0.net.Request?
            && s.wallet == s0.wallet + [Broadcast(s0.net.paid, Elems(s0.plan.confirmed), s0.plan.lo, s0.plan.hi)]))
    && s.plan == s0.plan
  }

  /** From a leftover unstamped intent on, however the processes interleave, the only
      broadcast that can still happen is the one already on its way; balances, payouts and
      settled blocks stay as they are until the operator clears the intent. */
  lemma {:induction false} AmbiguousIntentHalts(cfg: Config, s0: Sys, s: Sys, steps: seq<Step>)
    requires cfg.magnitude > 0.0
    requires s0.store.intent.Intent? && s0.store.intent.txid == ""
    requires Halted(s0, s) && CanRun(cfg, s, steps)
    requires forall step | step in steps :: !step.OperatorClear?
    ensures Halted(s0, RunFrom(cfg, s, steps))
    decreases |steps|
  {
    if steps != [] {
      assert steps[0] in steps;
      HaltedStep(cfg, s0, s, steps[0]);
      assert forall step | step in steps[1..] :: step in steps;
      hide Do, Enabled, Halted;
      AmbiguousIntentHalts(cfg, s0, Do(cfg, s, steps[0]), steps[1..]);
    }
  }

  lemma HaltedStep(cfg: Config, s0: Sys, s: Sys, step: Step)
    requires cfg.magnitude > 0.0
    requires s0.store.intent.Intent? && s0.store.intent.txid == ""
    requires Halted(s0, s) && Enabled(cfg, s, step) && !step.OperatorClear?
    ensures Halted(s0, Do(cfg, s, step))
  {
    hide WriterExec, Committed, MakeUpdate, Classified, Finished, OrphanUpdate, PpsRewards, Listing;
    if step.WExec? {
      WriterTouches(cfg, s);
    }
  }

  /** A writer command changes nothing but the log, the rounds and the pending set. */
  lemma WriterTouches(cfg: Config, s: Sys)
    requires s.writer.Busy?
    ensures
      var t := WriterExec(cfg, s);
      && t.payer == s.payer && t.net == s.net && t.plan == s.plan && t.sent == s.sent && t.wallet == s.wallet
      && t.store.intent == s.store.intent && t.store.payouts == s.store.payouts && t.store.balances == s.store.balances
      && t.store.confirmed == s.store.confirmed && t.store.orphaned == s.store.orphaned
      && t.store.cursor == s.store.cursor
  {
    hide Exec, OpenAt, CmdOf, NextStage;
    CommandTouches(CmdOf(s.writer.share, s.writer.seqNo, s.writer.stage), s.store, cfg.cap);
  }

  lemma CommandTouches(cmd: Cmd, st: Store, cap: nat)
    ensures
      var after := Exec(cmd, st, cap);
      && after.intent == st.intent && after.payouts == st.payouts && after.balances == st.balances
      && after.confirmed == st.confirmed && after.orphaned == st.orphaned && after.cursor == st.cursor
  {
    hide ZAdd, KeepNewest, Credit;
  }

  /** The two steps of the run that finds a stamped intent. */
  lemma ResumeSteps(cfg: Config, s: Sys) returns (t: Sys)
    requires cfg.magnitude > 0.0
    requires s.payer.Idle? && s.store.intent.Intent? && s.store.intent.txid != ""
    ensures CanRun(cfg, s, [Reconcile, ResumeApply]) && t == RunFrom(cfg, s, [Reconcile, ResumeApply])
    ensures t == Committed(s, s.store.intent.update).(payer := Ready)
  {
    hide Committed;
    var mid := Do(cfg, s, Reconcile);
    assert mid == s.(payer := Resume(s.store.intent.update));
    t := Do(cfg, mid, ResumeApply);
    assert [Reconcile, ResumeApply][1..] == [ResumeApply];
    assert [ResumeApply][1..] == [];
    assert CanRun(cfg, t, []);
    assert CanRun(cfg, mid, [ResumeApply]);
    assert Committed(mid, s.store.intent.update).(payer := Ready)
        == Committed(s, s.store.intent.update).(payer := Ready) by {
      CommittedFrame(s, mid, s.store.intent.update);
    }
  }

  lemma CommittedFrame(s: Sys, t: Sys, u: Update)
    requires t == s.(payer := t.payer)
    ensures Committed(t, u).(payer := Ready) == Committed(s, u).(payer := Ready)
  {
    hide Commit;
  }

  /** A crash after the stamp loses nothing: the next run completes the payout from the
      intent alone, without sending again. */
  lemma StampedIntentResumes(cfg: Config, s: Sys) returns (t: Sys)
    requires cfg.magnitude > 0.0 && Reachable(cfg, s)
    requires s.payer.Idle? && s.store.intent.Intent? && s.store.intent.txid != ""
    ensures CanRun(cfg, s, [Reconcile, ResumeApply]) && t == RunFrom(cfg, s, [Reconcile, ResumeApply])
    ensures t.wallet == s.wallet && t.store.intent == NoIntent && t.payer.Ready?
    ensures forall m: Miner :: WalletSum(t.wallet, m) == Get(t.store.payouts, m)
    ensures forall b | b in s.store.intent.update.confirmed :: b in t.store.confirmed
    ensures forall b | b in s.store.intent.update.orphaned :: b in t.store.orphaned
  {
    hide *;
    ReachableInv(cfg, s);
    var steps := [Reconcile, ResumeApply];
    t := ResumeSteps(cfg, s);
    RunKeepsInv(cfg, s, steps);
    SettledNow(cfg, s, t);
  }

  lemma SettledNow(cfg: Config, s: Sys, t: Sys)
    requires cfg.magnitude > 0.0 && Inv(cfg, s) && Inv(cfg, t) && s.store.intent.Intent?
    requires t == Committed(s, s.store.intent.update).(payer := Ready)
    ensures t.wallet == s.wallet && t.store.intent == NoIntent
    ensures forall m: Miner :: WalletSum(t.wallet, m) == Get(t.store.payouts, m)
    ensures forall b | b in s.store.intent.update.confirmed :: b in t.store.confirmed
    ensures forall b | b in s.store.intent.update.orphaned :: b in t.store.orphaned
  {
    hide LogInv, RoundInv, CountedInv, BlockInv, WriterInv, LedgerInv, CreditInv, PayerInv, WalletSum, ExactlyOnce;
    hide PlanOk, UpdateOk;
    var u := s.store.intent.update;
    UpdateLists(u, s.plan);
    PlanBlocks(cfg, s.store, s.hist, s.plan);
    CommitBlocks(s.store, u);
  }

  // ------------------------------------------------------------------
  // Conservation
  // ------------------------------------------------------------------

  /** Sum of the rewards of confirmed blocks. */
  function RewardSum(awards: seq<Award>): int {
    if awards == [] then 0 else RewardSum(awards[..|awards| - 1]) + awards[|awards| - 1].reward
  }

  /** How many parts those rewards were split into. */
  function PartCount(awards: seq<Award>): int {
    if awards == [] then 0 else PartCount(awards[..|awards| - 1]) + |awards[|awards| - 1].dist|
  }

  /** What those parts add up to. */
  ghost function DistSum(awards: seq<Award>): int {
    if awards == [] then 0 else DistSum(awards[..|awards| - 1]) + Total(awards[|awards| - 1].dist)
  }

  /** Outside pps mode each miner's balance and payouts are its parts of the confirmed
      blocks, the blocks with parts are exactly the confirmed ones, each counted once, and
      orphaned blocks have none. */
  lemma LedgerBalances(cfg: Config, s: Sys)
    requires cfg.magnitude > 0.0 && Reachable(cfg, s) && cfg.mode != PPS
    ensures forall m: Miner :: Get(s.store.balances, m) + Get(s.store.payouts, m) == AwardSum(s.awards, m)
    ensures Elems(AwardBlocks(s.awards)) == s.store.confirmed && NoDuplicates(AwardBlocks(s.awards))
    ensures s.store.orphaned !! s.store.confirmed
  {
    hide *;
    ReachableInv(cfg, s);
    Clauses(cfg, s);
    NothingCredited(cfg, s.store.log, s.store.lastSeq, s.store.cursor, s.hist, s.credits);
    PendingApart(s);
    LedgerFacts(cfg, s.store, s.awards, s.credits);
  }

  lemma NothingCredited(cfg: Config, log: seq<Entry>, lastSeq: nat, cursor: nat, hist: seq<Entry>,
                        credits: seq<Range>)
    requires cfg.magnitude > 0.0 && cfg.mode != PPS
    requires LogInv(cfg, log, lastSeq, cursor, hist) && CreditInv(cursor, hist, credits)
    ensures forall m: Miner :: CreditSum(cfg, credits, m) == 0
  {
    hide CreditInv, CreditSum, Increasing, AllNonNegative;
    forall m: Miner ensures CreditSum(cfg, credits, m) == 0 {
      NoCredits(cfg, cursor, hist, credits, m);
    }
  }

  lemma LedgerFacts(cfg: Config, st: Store, awards: seq<Award>, credits: seq<Range>)
    requires cfg.magnitude > 0.0 && cfg.mode != PPS && LedgerInv(cfg, st, awards, credits)
    requires forall m: Miner :: CreditSum(cfg, credits, m) == 0
    ensures forall m: Miner :: Get(st.balances, m) + Get(st.payouts, m) == AwardSum(awards, m)
    ensures Elems(AwardBlocks(awards)) == st.confirmed && NoDuplicates(AwardBlocks(awards))
  {
    hide AwardOk, AwardSum, CreditSum;
  }

  /** Dropping the last range gives the ranges up to where it starts. */
  lemma CreditsBefore(cursor: nat, hist: seq<Entry>, credits: seq<Range>)
    requires CreditInv(cursor, hist, credits) && credits != []
    ensures
      var n := |credits| - 1;
      CreditInv(credits[n].lo, hist, credits[..n]) && credits[n].lo <= credits[n].hi == cursor
  {
    hide Between, Totals;
    var n := |credits| - 1;
    var init := credits[..n];
    forall i | 0 <= i < n ensures init[i] == credits[i] && CreditedBefore(init, i) == CreditedBefore(credits, i) {
    }
    assert CreditedBefore(init, n) == CreditedBefore(credits, n);
  }

  lemma EmptyRange(hist: seq<Entry>)
    ensures Totals(Between(hist, 0, 0)) == map[]
  {
    AfterAboveZero(hist);
  }

  lemma {:induction false} NoCredits(cfg: Config, cursor: nat, hist: seq<Entry>, credits: seq<Range>, m: Miner)
    requires cfg.magnitude > 0.0 && CreditInv(cursor, hist, credits) && cursor == 0
    ensures CreditSum(cfg, credits, m) == 0
    decreases |credits|
  {
    hide Between, Totals;
    if credits != [] {
      var n := |credits| - 1;
      CreditsBefore(cursor, hist, credits);
      EmptyRange(hist);
      assert credits[n].work == map[];
      hide CreditInv;
      NoCredits(cfg, credits[n].lo, hist, credits[..n], m);
    }
  }

  lemma AwardsAreOk(cfg: Config, st: Store, awards: seq<Award>, credits: seq<Range>)
    requires cfg.magnitude > 0.0 && LedgerInv(cfg, st, awards, credits)
    ensures forall a | a in awards :: AwardOk(cfg, a)
  {
    hide AwardOk, AwardSum, CreditSum;
  }

  /** In total: what is owed and what was paid is at most the confirmed rewards, and short
      of them by less than one satoshi per part. */
  lemma TotalsConserved(cfg: Config, s: Sys)
    requires cfg.magnitude > 0.0 && Reachable(cfg, s) && cfg.mode != PPS
    ensures Total(s.store.balances) + Total(s.store.payouts) == DistSum(s.awards)
    ensures RewardSum(s.awards) - PartCount(s.awards) <= DistSum(s.awards) <= RewardSum(s.awards)
    ensures s.awards != [] ==> RewardSum(s.awards) - PartCount(s.awards) < DistSum(s.awards)
  {
    LedgerBalances(cfg, s);
    ReachableInv(cfg, s);
    hide RoundInv, CountedInv, WriterInv, IntentInv, PayerInv, WalletInv, BlockInv, LogInv, CreditInv;
    hide Inv, Reachable, AwardOk, LedgerInv;
    Clauses(cfg, s);
    AwardsAreOk(cfg, s.store, s.awards, s.credits);
    var keys := s.store.balances.Keys + s.store.payouts.Keys + AwardKeys(s.awards);
    SumOverSuperset(keys, s.store.balances);
    SumOverSuperset(keys, s.store.payouts);
    AwardsTotal(s.awards, keys, s.store.balances, s.store.payouts);
    AwardsBounded(cfg, s.awards);
  }

  function AwardKeys(awards: seq<Award>): set<Miner> {
    if awards == [] then {} else AwardKeys(awards[..|awards| - 1]) + awards[|awards| - 1].dist.Keys
  }

  ghost function AwardSumOver(keys: set<Miner>, awards: seq<Award>): int {
    if awards == [] then 0 else AwardSumOver(keys, awards[..|awards| - 1]) + SumOver(keys, awards[|awards| - 1].dist)
  }

  lemma {:induction false} AwardsTotal(awards: seq<Award>, keys: set<Miner>, a: map<Miner, nat>, b: map<Miner, nat>)
    requires AwardKeys(awards) <= keys
    requires forall m | m in keys :: Get(a, m) + Get(b, m) == AwardSum(awards, m)
    ensures SumOver(keys, a) + SumOver(keys, b) == DistSum(awards)
  {
    var sums := map m | m in keys :: AwardSum(awards, m);
    SumOverAdd(keys, a, b, sums);
    SumOfAwards(awards, keys, sums);
    DistIsSumOver(awards, keys);
  }

  lemma {:induction false} SumOfAwards(awards: seq<Award>, keys: set<Miner>, sums: map<Miner, int>)
    requires forall m | m in keys :: Get(sums, m) == AwardSum(awards, m)
    ensures SumOver(keys, sums) == AwardSumOver(keys, awards)
    decreases |awards|
  {
    if awards == [] {
      SumOverSame(keys, sums, map[]);
      SumOverSuperset(keys, map[]);
      assert Total<Miner>(map[]) == 0;
    } else {
      var init, dist := awards[..|awards| - 1], awards[|awards| - 1].dist;
      var before := map m | m in keys :: AwardSum(init, m);
      SumOfAwards(init, keys, before);
      SumOverAdd(keys, before, dist, sums);
    }
  }

  lemma {:induction false} DistIsSumOver(awards: seq<Award>, keys: set<Miner>)
    requires AwardKeys(awards) <= keys
    ensures AwardSumOver(keys, awards) == DistSum(awards)
    decreases |awards|
  {
    if awards != [] {
      DistIsSumOver(awards[..|awards| - 1], keys);
      SumOverSuperset(keys, awards[|awards| - 1].dist);
    }
  }

  lemma {:induction false} AwardsBounded(cfg: Config, awards: seq<Award>)
    requires forall a | a in awards :: AwardOk(cfg, a)
    ensures RewardSum(awards) - PartCount(awards) <= DistSum(awards) <= RewardSum(awards)
    ensures awards != [] ==> RewardSum(awards) - PartCount(awards) < DistSum(awards)
    decreases |awards|
  {
    if awards != [] {
      var init := awards[..|awards| - 1];
      assert AwardOk(cfg, awards[|awards| - 1]);
      AwardsBounded(cfg, init);
    }
  }

  /** Every block ever recorded as pending is in exactly one of the three sets. */
  lemma BlocksPartitioned(cfg: Config, s: Sys, b: Block)
    requires cfg.magnitude > 0.0 && Reachable(cfg, s)
    ensures b in s.found <==> b in s.store.pending || b in s.store.confirmed || b in s.store.orphaned
    ensures !(b in s.store.pending && b in s.store.confirmed)
    ensures !(b in s.store.pending && b in s.store.orphaned)
    ensures !(b in s.store.confirmed && b in s.store.orphaned)
  {
    hide *;
    ReachableInv(cfg, s);
    Clauses(cfg, s);
    InOneSet(s, b);
  }

  lemma InOneSet(s: Sys, b: Block)
    requires BlockInv(s.store, s.tally, s.seals, s.dropped, s.found)
    ensures b in s.found <==> b in s.store.pending || b in s.store.confirmed || b in s.store.orphaned
    ensures !(b in s.store.pending && b in s.store.confirmed)
    ensures !(b in s.store.pending && b in s.store.orphaned)
    ensures !(b in s.store.confirmed && b in s.store.orphaned)
  {
    hide SolvedBy, SettledHeight;
  }

  // ------------------------------------------------------------------
  // PPS
  // ------------------------------------------------------------------

  /** Difficulty that the committed ranges credited to a miner. */
  function CreditedWork(credits: seq<Range>, m: Miner): real {
    if credits == [] then 0.0
    else CreditedWork(credits[..|credits| - 1], m) + GetReal(credits[|credits| - 1].work, m)
  }

  lemma {:induction false} BetweenJoins(hist: seq<Entry>, lo: nat, hi: nat, m: Miner)
    requires lo <= hi
    ensures MinerWork(UpTo(hist, lo), m) + MinerWork(Between(hist, lo, hi), m) == MinerWork(UpTo(hist, hi), m)
  {
    if hist != [] {
      var e, rest := hist[0], hist[1..];
      BetweenJoins(rest, lo, hi, m);
      var inLow, inNew := if e.seqNo <= lo then [e] else [], if e.seqNo > lo then [e] else [];
      var inAll, inBetween := if e.seqNo <= hi then [e] else [], if lo < e.seqNo <= hi then [e] else [];
      assert UpTo(inNew, hi) == inBetween;
      UpToConcat(inNew, After(rest, lo), hi);
      hide After;
      MinerWorkConcat(inLow, UpTo(rest, lo), m);
      MinerWorkConcat(inBetween, Between(rest, lo, hi), m);
      MinerWorkConcat(inAll, UpTo(rest, hi), m);
    }
  }

  lemma {:induction false} CreditedIsLogged(cursor: nat, hist: seq<Entry>, credits: seq<Range>, m: Miner)
    requires CreditInv(cursor, hist, credits) && forall e | e in hist :: e.seqNo > 0
    ensures CreditedWork(credits, m) == MinerWork(UpTo(hist, cursor), m)
    decreases |credits|
  {
    if credits == [] {
      AfterAll(hist, 0);
    } else {
      var last := credits[|credits| - 1];
      CreditsBefore(cursor, hist, credits);
      assert last.work == Totals(Between(hist, last.lo, last.hi));
      hide CreditInv, Between, Totals, UpTo, MinerWork;
      CreditedIsLogged(last.lo, hist, credits[..|credits| - 1], m);
      BetweenJoins(hist, last.lo, last.hi, m);
      TotalsAreMinerWork(Between(hist, last.lo, last.hi));
    }
  }

  /** Every share up to the cursor has been credited exactly once, and every share after it
      is still in the log. */
  lemma SharesCreditedOnce(cfg: Config, s: Sys)
    requires cfg.magnitude > 0.0 && Reachable(cfg, s) && cfg.mode == PPS
    ensures forall m: Miner :: CreditedWork(s.credits, m) == MinerWork(UpTo(s.hist, s.store.cursor), m)
    ensures s.store.log == After(s.hist, s.store.cursor)
  {
    hide *;
    ReachableInv(cfg, s);
    Clauses(cfg, s);
    UncreditedLog(cfg, s.store.log, s.store.lastSeq, s.store.cursor, s.hist);
    forall m: Miner ensures CreditedWork(s.credits, m) == MinerWork(UpTo(s.hist, s.store.cursor), m) {
      CreditedIsLogged(s.store.cursor, s.hist, s.credits, m);
    }
  }

  /** In pps mode the log is what lies behind the cursor. */
  lemma UncreditedLog(cfg: Config, log: seq<Entry>, lastSeq: nat, cursor: nat, hist: seq<Entry>)
    requires LogInv(cfg, log, lastSeq, cursor, hist) && cfg.mode == PPS
    ensures log == After(hist, cursor) && forall e | e in hist :: e.seqNo > 0
  {
    hide After, Increasing, AllNonNegative;
  }

  /** The upper end of the share range that the payer's run is about to settle. */
  function RangeEnd(p: Payer): nat {
    match p
    case Resume(u) => u.cursor
    case SharesRead(_, _, hi) => hi
    case Seeded(run) => run.hi
    case Scan(run, _) => run.hi
    case Planning(run, _) => run.hi
    case Persisted(run, u, _) => if run.hi > u.cursor then run.hi else u.cursor
    case Awaiting(run, u, _) => if run.hi > u.cursor then run.hi else u.cursor
    case Stamping(u, _) => u.cursor
    case Committing(u) => u.cursor
    case _ => 0
  }

  /** A share that has its number but is not logged yet lies beyond the cursor, beyond every
      logged share, beyond the intent and, wherever the payer stands in its run, beyond the
      range it has read. */
  lemma NumberedShareNotSkipped(cfg: Config, s: Sys)
    requires cfg.magnitude > 0.0 && Reachable(cfg, s)
    requires s.writer.Busy? && s.writer.stage == ToLog
    ensures s.writer.seqNo > s.store.cursor
    ensures forall e | e in s.hist :: e.seqNo < s.writer.seqNo
    ensures RangeEnd(s.payer) < s.writer.seqNo
    ensures s.store.intent.Intent? ==> s.store.intent.update.cursor < s.writer.seqNo
  {
    hide *;
    ReachableInv(cfg, s);
    Clauses(cfg, s);
    CursorBelowTop(cfg, s);
    NumberAbove(cfg, s);
    RangesLogged(cfg, s);
  }

  lemma NumberAbove(cfg: Config, s: Sys)
    requires WriterInv(cfg, s) && s.writer.Busy? && s.writer.stage == ToLog
    requires LogInv(cfg, s.store.log, s.store.lastSeq, s.store.cursor, s.hist)
    ensures Top(s.hist) < s.writer.seqNo && forall e | e in s.hist :: e.seqNo < s.writer.seqNo
  {
    hide After, AllNonNegative;
    AppendAbove(s.hist, EntryOf(s.writer.share, s.writer.seqNo));
  }

  /** Every range in use ends at a logged share. */
  lemma RangesLogged(cfg: Config, s: Sys)
    requires cfg.magnitude > 0.0 && IntentInv(cfg, s) && PayerInv(cfg, s)
    ensures RangeEnd(s.payer) <= Top(s.hist)
    ensures s.store.intent.Intent? ==> s.store.intent.update.cursor <= Top(s.hist)
  {
    hide AwardSum, AwardOk, Distinct, HeightSet, PpsRewards, Between, Totals;
  }

  // ------------------------------------------------------------------
  // Rounds
  // ------------------------------------------------------------------

  lemma {:induction false} SealOrder(tally: seq<Entry>, seals: seq<Seal>, i: nat, j: nat)
    requires SealsOk(tally, seals) && i < j < |seals|
    ensures 0 <= seals[i].lo < seals[i].hi <= seals[j].lo < seals[j].hi <= |tally|
    decreases j - i
  {
    hide SealsOk;
    SealAt(tally, seals, i);
    SealAt(tally, seals, j);
    SealAt(tally, seals, j - 1);
    if i < j - 1 {
      SealOrder(tally, seals, i, j - 1);
    }
  }

  /** Later seals end with later shares. */
  lemma SealMarks(tally: seq<Entry>, seals: seq<Seal>, i: nat, j: nat)
    requires SealsOk(tally, seals) && Increasing(tally) && i < j < |seals|
    ensures 0 < seals[i].hi < seals[j].hi <= |tally|
    ensures tally[seals[i].hi - 1].seqNo < tally[seals[j].hi - 1].seqNo
  {
    hide SealsOk;
    SealOrder(tally, seals, i, j);
  }

  /** A block's own share closed exactly one round. */
  lemma OwnSeal(tally: seq<Entry>, seals: seq<Seal>, b: Block, i: nat, j: nat)
    requires SealsOk(tally, seals) && Increasing(tally)
    requires SolvedAt(tally, seals, b, i) && SolvedAt(tally, seals, b, j)
    ensures i == j
  {
    hide SealsOk, Increasing;
    if i < j { SealMarks(tally, seals, i, j); }
    if j < i { SealMarks(tally, seals, j, i); }
  }

  /** No other round was sealed at the height of the i-th seal. */
  ghost predicate OnlySeal(seals: seq<Seal>, i: nat) {
    i < |seals| && forall j | 0 <= j < |seals| :: seals[j].height == seals[i].height ==> j == i
  }

  /** When no other round was sealed at its height, the round of a pending block is there. */
  lemma OnlySealHolds(st: Store, tally: seq<Entry>, seals: seq<Seal>, dropped: map<nat, nat>, found: set<Block>,
                      b: Block, i: nat)
    requires BlockInv(st, tally, seals, dropped, found) && b in st.pending
    requires SolvedAt(tally, seals, b, i) && OnlySeal(seals, i)
    ensures HoldsRound(seals, dropped, b.height, i)
  {
    hide SealsOk, SolvedBy;
    forall a | a in st.confirmed + st.orphaned ensures a.height != b.height {
      assert a in found && b in found && a != b;
      SolvedElsewhere(tally, seals, a, b, i);
    }
  }

  lemma SolvedElsewhere(tally: seq<Entry>, seals: seq<Seal>, a: Block, b: Block, i: nat)
    requires SolvedBy(tally, seals, a) && SolvedAt(tally, seals, b, i) && OnlySeal(seals, i) && a.mark != b.mark
    ensures a.height != b.height
  {
    var j: nat :| SolvedAt(tally, seals, a, j);
  }

  /** A round that another block's seal took over. */
  lemma TakenOver(st: Store, tally: seq<Entry>, seals: seq<Seal>, dropped: map<nat, nat>, b: Block, i: nat)
    returns (j: nat)
    requires RoundInv(st.current, st.rounds, tally, seals, dropped)
    requires SolvedAt(tally, seals, b, i) && b.height in st.rounds
    ensures HoldsRound(seals, dropped, b.height, j) && i <= j < |seals| && seals[j].lo <= seals[j].hi <= |tally|
    ensures st.rounds[b.height] == Totals(RoundShares(tally, seals[j]))
    ensures HoldsRound(seals, dropped, b.height, i) ==> j == i
  {
    hide SealsOk, AllNonNegative, Totals, HoldsRound;
    j :| HoldsRound(seals, dropped, b.height, j);
    assert RoundKeyOf(st.rounds, tally, seals, b.height, j);
    LastIsLater(seals, dropped, b.height, i, j);
    if HoldsRound(seals, dropped, b.height, i) { LastIsLater(seals, dropped, b.height, j, i); }
  }

  lemma LastIsLater(seals: seq<Seal>, dropped: map<nat, nat>, h: nat, i: nat, j: nat)
    requires HoldsRound(seals, dropped, h, j)
    ensures j < |seals| && seals[j].height == h && (i < |seals| && seals[i].height == h ==> i <= j)
  {
  }

  /** A pending block's own share closed the i-th round, which is the valid shares after the
      previous seal up to and including that share. While the round's key is neither renamed
      over nor deleted, as when no other round was sealed at the height, it holds the per-miner
      sums of exactly these shares; if there is a key otherwise, it is that of a later round. */
  lemma PendingRoundExact(cfg: Config, s: Sys, b: Block) returns (i: nat)
    requires cfg.magnitude > 0.0 && Reachable(cfg, s) && b in s.store.pending
    ensures SolvedAt(s.tally, s.seals, b, i)
    ensures s.seals[i].lo == SealedBefore(s.seals, i) && s.seals[i].lo < s.seals[i].hi <= |s.tally|
    ensures OnlySeal(s.seals, i) ==> HoldsRound(s.seals, s.dropped, b.height, i)
    ensures HoldsRound(s.seals, s.dropped, b.height, i) ==>
              b.height in s.store.rounds && s.store.rounds[b.height] == Totals(RoundShares(s.tally, s.seals[i]))
    ensures b.height in s.store.rounds && !HoldsRound(s.seals, s.dropped, b.height, i) ==>
              exists j: nat :: i < j && HoldsRound(s.seals, s.dropped, b.height, j)
  {
    hide *;
    ReachableInv(cfg, s);
    Clauses(cfg, s);
    i := SolvingSeal(s, b);
    RoundsInOrder(s.store, s.tally, s.seals, s.dropped);
    SealAt(s.tally, s.seals, i);
    if OnlySeal(s.seals, i) { OnlySealHolds(s.store, s.tally, s.seals, s.dropped, s.found, b, i); }
    if b.height in s.store.rounds {
      var j := TakenOver(s.store, s.tally, s.seals, s.dropped, b, i);
    } else if HoldsRound(s.seals, s.dropped, b.height, i) {
      KeyThere(s.store, s.tally, s.seals, s.dropped, b.height, i);
    }
  }

  lemma SolvingSeal(s: Sys, b: Block) returns (i: nat)
    requires BlockInv(s.store, s.tally, s.seals, s.dropped, s.found) && b in s.store.pending
    ensures SolvedAt(s.tally, s.seals, b, i) && i < |s.seals| && s.seals[i].height == b.height
  {
    hide SettledHeight, SolvedAt;
    assert b in s.found && SolvedBy(s.tally, s.seals, b);
    i :| SolvedAt(s.tally, s.seals, b, i);
    SolvedThere(s.tally, s.seals, b, i);
  }

  lemma SolvedThere(tally: seq<Entry>, seals: seq<Seal>, b: Block, i: nat)
    requires SolvedAt(tally, seals, b, i)
    ensures i < |seals| && seals[i].height == b.height
  {
  }

  lemma RoundsInOrder(st: Store, tally: seq<Entry>, seals: seq<Seal>, dropped: map<nat, nat>)
    requires RoundInv(st.current, st.rounds, tally, seals, dropped)
    ensures SealsOk(tally, seals)
  {
    hide SealsOk, Totals, AllNonNegative, HoldsRound;
  }

  lemma KeyThere(st: Store, tally: seq<Entry>, seals: seq<Seal>, dropped: map<nat, nat>, h: nat, i: nat)
    requires RoundInv(st.current, st.rounds, tally, seals, dropped) && HoldsRound(seals, dropped, h, i)
    ensures h in st.rounds
  {
    hide SealsOk, Totals, AllNonNegative, HoldsRound;
    assert RoundKeyOf(st.rounds, tally, seals, h, i);
  }

  lemma NothingToSplit(reward: nat)
    ensures SplitByShares(reward, map[]) == map[]
  {
  }

  /** Prop mode splits a block's reward over the shares of its own round, unless a later seal at
      its height renamed over it or settling another block deleted it: then over the later
      round, or over nothing. */
  lemma PropPaysItsRound(cfg: Config, s: Sys, b: Block, reward: nat) returns (i: nat, paid: Option<nat>)
    requires cfg.magnitude > 0.0 && Reachable(cfg, s) && b in s.store.pending && cfg.mode == Prop
    ensures SolvedAt(s.tally, s.seals, b, i)
    ensures OnlySeal(s.seals, i) || HoldsRound(s.seals, s.dropped, b.height, i) ==> paid == Some(i)
    ensures match paid
      case None => Attribute(cfg, s.store, b, reward) == map[]
      case Some(j) =>
        && i <= j < |s.seals| && HoldsRound(s.seals, s.dropped, b.height, j)
        && s.seals[j].lo <= s.seals[j].hi <= |s.tally|
        && Attribute(cfg, s.store, b, reward) == SplitByShares(reward, Totals(s.tally[s.seals[j].lo..s.seals[j].hi]))
  {
    hide Reachable, SplitByShares, Totals, HoldsRound, OnlySeal, RoundInv, Inv;
    i := PendingRoundExact(cfg, s, b);
    paid := None;
    if b.height in s.store.rounds {
      ReachableInv(cfg, s);
      RoundsOf(cfg, s);
      var j := TakenOver(s.store, s.tally, s.seals, s.dropped, b, i);
      paid := Some(j);
    } else {
      NothingToSplit(reward);
    }
  }

  lemma RoundsOf(cfg: Config, s: Sys)
    requires cfg.magnitude > 0.0 && Inv(cfg, s)
    ensures RoundInv(s.store.current, s.store.rounds, s.tally, s.seals, s.dropped)
    ensures BlockInv(s.store, s.tally, s.seals, s.dropped, s.found)
    ensures Increasing(s.tally)
  {
    hide LogInv, RoundInv, BlockInv, WriterInv, IntentInv, PayerInv, WalletInv, LedgerInv, CreditInv, Increasing;
  }

  /** Work in the first n sealed rounds. */
  function SealedWork(tally: seq<Entry>, seals: seq<Seal>, n: nat, m: Miner): real
    requires n <= |seals| && SealsOk(tally, seals)
  {
    if n == 0 then 0.0
    else SealedWork(tally, seals, n - 1, m) + MinerWork(RoundShares(tally, seals[n - 1]), m)
  }

  lemma {:induction false} SealedPrefix(tally: seq<Entry>, seals: seq<Seal>, n: nat, m: Miner)
    requires n <= |seals| && SealsOk(tally, seals)
    ensures SealedBefore(seals, n) <= |tally|
    ensures SealedWork(tally, seals, n, m) == MinerWork(tally[..SealedBefore(seals, n)], m)
  {
    hide SealsOk;
    if n == 0 {
      assert tally[..0] == [];
    } else {
      SealAt(tally, seals, n - 1);
      SealedPrefix(tally, seals, n - 1, m);
      var seal := seals[n - 1];
      hide MinerWork;
      var before, round := tally[..seal.lo], RoundShares(tally, seal);
      assert tally[..seal.hi] == before + round;
      MinerWorkConcat(before, round, m);
    }
  }

  /** All sealed rounds and the open one add up to all valid share work; a round key that is
      still there holds the totals of its own part of it. */
  lemma RoundsConserveWork(cfg: Config, s: Sys, m: Miner)
    requires cfg.magnitude > 0.0 && Reachable(cfg, s)
    ensures SealsOk(s.tally, s.seals)
    ensures forall h, i: nat | HoldsRound(s.seals, s.dropped, h, i) ::
              RoundKeyOf(s.store.rounds, s.tally, s.seals, h, i)
    ensures forall h | h in s.store.rounds :: exists i: nat :: HoldsRound(s.seals, s.dropped, h, i)
    ensures SealedWork(s.tally, s.seals, |s.seals|, m) + GetReal(s.store.current, m) == MinerWork(s.tally, m)
    ensures forall e | e in s.tally :: e in s.hist
  {
    hide *;
    ReachableInv(cfg, s);
    Clauses(cfg, s);
    CountedLogged(s.hist, s.tally);
    RoundKeys(s.store, s.tally, s.seals, s.dropped);
    var at := OpenAt(s.seals);
    SealedPrefix(s.tally, s.seals, |s.seals|, m);
    OpenIs(s.seals);
    TotalsAreMinerWork(s.tally[at..]);
    assert s.tally == s.tally[..at] + s.tally[at..];
    MinerWorkConcat(s.tally[..at], s.tally[at..], m);
  }

  lemma OpenIs(seals: seq<Seal>)
    ensures OpenAt(seals) == SealedBefore(seals, |seals|)
  {
  }

  lemma CountedLogged(hist: seq<Entry>, tally: seq<Entry>)
    requires CountedInv(hist, tally)
    ensures forall e | e in tally :: e in hist
  {
    hide Increasing;
  }

  lemma RoundKeys(st: Store, tally: seq<Entry>, seals: seq<Seal>, dropped: map<nat, nat>)
    requires RoundInv(st.current, st.rounds, tally, seals, dropped)
    ensures SealsOk(tally, seals) && OpenAt(seals) <= |tally| && st.current == Totals(tally[OpenAt(seals)..])
    ensures forall h, i: nat | HoldsRound(seals, dropped, h, i) :: RoundKeyOf(st.rounds, tally, seals, h, i)
    ensures forall h | h in st.rounds :: exists i: nat :: HoldsRound(seals, dropped, h, i)
  {
    hide SealsOk, Totals, AllNonNegative, HoldsRound, RoundKeyOf;
  }

  // ------------------------------------------------------------------
  // PPLNS
  // ------------------------------------------------------------------

  /** A pending block's window, read from the capped log, is the window of the full share
      history as long as that window lies within the newest cap entries. */
  lemma PplnsReadsFullWindow(cfg: Config, s: Sys, b: Block)
    requires cfg.magnitude > 0.0 && Reachable(cfg, s) && cfg.mode == PPLNS
    requires |s.hist| - WindowStart(UpTo(s.hist, b.mark), cfg.window) <= cfg.cap
    ensures WindowShares(s.store.log, b.mark, cfg.window) == WindowShares(s.hist, b.mark, cfg.window)
  {
    hide *;
    ReachableInv(cfg, s);
    Clauses(cfg, s);
    NewestPart(cfg, s.store.log, s.store.lastSeq, s.store.cursor, s.hist);
    TailWindow(s.hist, s.store.log, b.mark, cfg.window);
  }

  /** Outside pps mode the log is the newest cap shares, or all of them. */
  lemma NewestPart(cfg: Config, log: seq<Entry>, lastSeq: nat, cursor: nat, hist: seq<Entry>)
    requires LogInv(cfg, log, lastSeq, cursor, hist) && cfg.mode != PPS
    ensures Increasing(hist) && IsTail(log, hist) && |log| <= |hist|
    ensures |log| >= cfg.cap || |log| == |hist|
  {
    hide Increasing, AllNonNegative;
  }

  /** The window lies in the newest part of the history. */
  lemma TailWindow(hist: seq<Entry>, log: seq<Entry>, mark: int, window: real)
    requires Increasing(hist) && IsTail(log, hist)
    requires |hist| - |log| <= WindowStart(UpTo(hist, mark), window)
    ensures WindowShares(log, mark, window) == WindowShares(hist, mark, window)
  {
    hide UpTo, WindowStart, Totals, Increasing;
    CappedWindow(hist, |hist| - |log|, mark, window);
  }

  /** A pplns reward is split over the window of the full share history that ends at the block's
      mark, as long as that window lies within the newest cap entries. */
  lemma PplnsPaysItsWindow(cfg: Config, s: Sys, b: Block, reward: nat)
    requires cfg.magnitude > 0.0 && Reachable(cfg, s) && cfg.mode == PPLNS && cfg.window > 0.0
    requires |s.hist| - WindowStart(UpTo(s.hist, b.mark), cfg.window) <= cfg.cap
    ensures Attribute(cfg, s.store, b, reward) == SplitByShares(reward, WindowShares(s.hist, b.mark, cfg.window))
  {
    PplnsReadsFullWindow(cfg, s, b);
    hide Reachable, WindowShares, SplitByShares, WindowStart, UpTo;
  }

  /** Along a run the share history only grows, with ever higher numbers. */
  lemma {:induction false} HistoryGrows(cfg: Config, s: Sys, steps: seq<Step>) returns (later: seq<Entry>)
    requires cfg.magnitude > 0.0 && Inv(cfg, s) && CanRun(cfg, s, steps)
    ensures RunFrom(cfg, s, steps).hist == s.hist + later
    ensures forall e | e in later :: e.seqNo > Top(s.hist)
    decreases |steps|
  {
    hide Do, Enabled, Inv;
    if steps == [] {
      later := [];
    } else {
      var t := Do(cfg, s, steps[0]);
      StepKeepsInv(cfg, s, steps[0]);
      var head := HistoryStep(cfg, s, steps[0]);
      var rest := HistoryGrows(cfg, t, steps[1..]);
      later := head + rest;
      assert s.hist + later == (s.hist + head) + rest;
    }
  }

  lemma HistoryStep(cfg: Config, s: Sys, step: Step) returns (head: seq<Entry>)
    requires cfg.magnitude > 0.0 && Inv(cfg, s) && Enabled(cfg, s, step)
    ensures Do(cfg, s, step).hist == s.hist + head
    ensures forall e | e in head :: e.seqNo > Top(s.hist)
    ensures Top(s.hist) <= Top(s.hist + head)
  {
    hide LogInv, RoundInv, CountedInv, BlockInv, IntentInv, PayerInv, WalletInv, LedgerInv, CreditInv;
    hide Committed, MakeUpdate, Classified, Finished, OrphanUpdate, PpsRewards, Listing, Exec;
    head := if step.WExec? && s.writer.stage == ToLog then [EntryOf(s.writer.share, s.writer.seqNo)] else [];
    if head == [] {
      assert s.hist + head == s.hist;
      if !step.WExec? { HistoryOnlyFromWriter(cfg, s, step); }
    }
  }

  lemma HistoryOnlyFromWriter(cfg: Config, s: Sys, step: Step)
    requires cfg.magnitude > 0.0 && Enabled(cfg, s, step) && !step.WExec?
    ensures Do(cfg, s, step).hist == s.hist
  {
    hide Commit, MakeUpdate, Classified, Finished, OrphanUpdate, PpsRewards, Listing;
  }

  /** Whatever is mined later, a found block's window stays what it was. */
  lemma PplnsWindowFixed(cfg: Config, s: Sys, b: Block, steps: seq<Step>)
    requires cfg.magnitude > 0.0 && Reachable(cfg, s) && b in s.found && CanRun(cfg, s, steps)
    ensures WindowShares(RunFrom(cfg, s, steps).hist, b.mark, cfg.window) == WindowShares(s.hist, b.mark, cfg.window)
  {
    hide *;
    ReachableInv(cfg, s);
    var later := HistoryGrows(cfg, s, steps);
    MarkLogged(cfg, s, b);
    WindowIgnoresLaterShares(s.hist, later, b.mark, cfg.window);
  }

  lemma MarkLogged(cfg: Config, s: Sys, b: Block)
    requires cfg.magnitude > 0.0 && Inv(cfg, s) && b in s.found
    ensures b.mark <= Top(s.hist)
  {
    hide LogInv, RoundInv, CountedInv, BlockInv, WriterInv, IntentInv, PayerInv, WalletInv, LedgerInv, CreditInv;
    Clauses(cfg, s);
    hide Inv;
    var e := SolvingShare(s, b);
    CountedLogged(s.hist, s.tally);
    NoneAboveTop(cfg, s, e);
  }

  lemma SolvingShare(s: Sys, b: Block) returns (e: Entry)
    requires BlockInv(s.store, s.tally, s.seals, s.dropped, s.found) && b in s.found
    ensures e in s.tally && e.seqNo == b.mark
  {
    hide SettledHeight;
    assert SolvedBy(s.tally, s.seals, b);
    var i: nat :| SolvedAt(s.tally, s.seals, b, i);
    e := s.tally[s.seals[i].hi - 1];
  }

  lemma NoneAboveTop(cfg: Config, s: Sys, e: Entry)
    requires LogInv(cfg, s.store.log, s.store.lastSeq, s.store.cursor, s.hist) && e in s.hist
    ensures e.seqNo <= Top(s.hist)
  {
    hide AllNonNegative, After;
    var k :| 0 <= k < |s.hist| && s.hist[k] == e;
    assert k == |s.hist| - 1 || s.hist[k].seqNo < s.hist[|s.hist| - 1].seqNo;
  }
}
