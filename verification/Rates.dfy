/** The pps law: in every reachable state, what a miner was credited is its logged work at the pps
    rate, but for rounding. */
module Rates {
  import opened Prelude
  import opened Shares
  import opened Coins
  import opened Ledger
  import opened Protocol
  import opened Invariant
  import opened Safety
  import opened Guarantees
  import opened Awards
  import opened Cycles

  /** Work at the rate, in base units. */
  function AtRate(cfg: Config, work: real): real {
    work * cfg.ppsRate * cfg.magnitude
  }

  /** In how many committed ranges the miner had shares. */
  function RangesOf(credits: seq<Range>, m: Miner): nat {
    if credits == [] then 0
    else RangesOf(credits[..|credits| - 1], m) + if m in credits[|credits| - 1].work then 1 else 0
  }

  /** sum is x up to half a unit for each of n roundings. */
  predicate WithinHalves(sum: int, x: real, n: nat) {
    x - n as real / 2.0 <= sum as real <= x + n as real / 2.0
  }

  /** In pps mode no block reward is divided. */
  lemma NoAwardsInPps(cfg: Config, s: Sys)
    requires cfg.magnitude > 0.0 && Reachable(cfg, s) && cfg.mode == PPS
    ensures s.awards == [] && (s.payer.Committing? || s.payer.Resume? ==> s.plan.awards == [])
  {
    hide Reachable;
    ReachableEarned(cfg, s);
    assert forall a :: Held(s, a) ==> cfg.mode != PPS;
    assert forall a :: a in s.awards || a in s.plan.awards ==> Held(s, a);
    NoneIn(s.awards);
    NoneIn(s.plan.awards);
  }

  lemma NoneIn(awards: seq<Award>)
    ensures awards == [] || exists a :: a in awards
  {
    if awards != [] { assert awards[0] in awards; }
  }

  lemma RateAdds(cfg: Config, a: real, b: real)
    ensures AtRate(cfg, a + b) == AtRate(cfg, a) + AtRate(cfg, b)
  {
    assert (a + b) * cfg.ppsRate == a * cfg.ppsRate + b * cfg.ppsRate;
  }

  lemma RateNotNegative(cfg: Config, work: real)
    requires cfg.magnitude > 0.0 && cfg.ppsRate >= 0.0 && work >= 0.0
    ensures AtRate(cfg, work) >= 0.0
  {
    assert work * cfg.ppsRate >= 0.0;
  }

  /** One range credits each miner that had shares in it its work at the rate, rounded once. */
  lemma RangeWithin(cfg: Config, work: map<Miner, real>, m: Miner)
    requires cfg.magnitude > 0.0 && cfg.ppsRate >= 0.0 && NonNegative(work)
    ensures WithinHalves(Get(PpsRewards(cfg, work), m), AtRate(cfg, GetReal(work, m)), if m in work then 1 else 0)
  {
    RewardOn(cfg, work, m);
    NearestReward(cfg, GetReal(work, m));
    RateNotNegative(cfg, GetReal(work, m));
    hide PpsRewards, PpsReward;
  }

  lemma {:induction false} CreditsWithin(cfg: Config, credits: seq<Range>, m: Miner)
    requires cfg.magnitude > 0.0 && cfg.ppsRate >= 0.0 && forall c | c in credits :: NonNegative(c.work)
    ensures WithinHalves(CreditSum(cfg, credits, m), AtRate(cfg, CreditedWork(credits, m)), RangesOf(credits, m))
    decreases |credits|
  {
    if credits == [] {
      assert AtRate(cfg, 0.0) == 0.0;
    } else {
      var n := |credits| - 1;
      assert forall c | c in credits[..n] :: c in credits;
      CreditsWithin(cfg, credits[..n], m);
      assert credits[n] in credits;
      RangeWithin(cfg, credits[n].work, m);
      RateAdds(cfg, CreditedWork(credits[..n], m), GetReal(credits[n].work, m));
      hide AtRate, PpsRewards, NonNegative;
    }
  }

  lemma CreditsNotNegative(cfg: Config, cursor: nat, hist: seq<Entry>, credits: seq<Range>)
    requires CreditInv(cursor, hist, credits) && AllNonNegative(hist)
    ensures forall c | c in credits :: NonNegative(c.work)
  {
    hide Totals, Between, NonNegative, AllNonNegative;
    forall c | c in credits ensures NonNegative(c.work) {
      var i :| 0 <= i < |credits| && credits[i] == c;
      BetweenIn(hist, c.lo, c.hi);
      TotalsNonNegative(Between(hist, c.lo, c.hi));
    }
  }

  lemma BetweenIn(hist: seq<Entry>, lo: nat, hi: nat)
    requires AllNonNegative(hist)
    ensures AllNonNegative(Between(hist, lo, hi))
  {
    hide After, UpTo;
    AfterSubset(hist, lo);
    UpToSubset(After(hist, lo), hi);
  }

  lemma HistoryNotNegative(cfg: Config, log: seq<Entry>, lastSeq: nat, cursor: nat, hist: seq<Entry>)
    requires LogInv(cfg, log, lastSeq, cursor, hist)
    ensures AllNonNegative(hist)
  {
    hide Increasing, AllNonNegative, After, IsTail;
  }

  lemma OnlyCredits(cfg: Config, s: Sys, m: Miner)
    requires cfg.magnitude > 0.0 && LedgerInv(cfg, s.store, s.awards, s.credits) && s.awards == []
    ensures Get(s.store.balances, m) + Get(s.store.payouts, m) == CreditSum(cfg, s.credits, m)
  {
    hide CreditSum, AwardsOk;
    assert AwardSum(s.awards, m) == 0;
  }

  /** In every reachable state a miner's balance and payouts are its work logged up to the
      cursor at the pps rate, up to half a unit for each committed range it had shares in. */
  lemma CreditedAtRate(cfg: Config, s: Sys, m: Miner) returns (earned: real)
    requires cfg.magnitude > 0.0 && Reachable(cfg, s) && cfg.mode == PPS && cfg.ppsRate >= 0.0
    ensures RangesOf(s.credits, m) <= |s.credits|
    ensures earned == MinerWork(UpTo(s.hist, s.store.cursor), m) * cfg.ppsRate * cfg.magnitude
    ensures WithinHalves(Get(s.store.balances, m) + Get(s.store.payouts, m), earned, RangesOf(s.credits, m))
  {
    hide *;
    ReachableInv(cfg, s);
    Clauses(cfg, s);
    NoAwardsInPps(cfg, s);
    OnlyCredits(cfg, s, m);
    SharesCreditedOnce(cfg, s);
    HistoryNotNegative(cfg, s.store.log, s.store.lastSeq, s.store.cursor, s.hist);
    CreditsNotNegative(cfg, s.store.cursor, s.hist, s.credits);
    CreditsWithin(cfg, s.credits, m);
    assert CreditedWork(s.credits, m) == MinerWork(UpTo(s.hist, s.store.cursor), m);
    earned := AtRateIs(cfg, MinerWork(UpTo(s.hist, s.store.cursor), m));
    RangeCount(s.credits, m);
  }

  lemma AtRateIs(cfg: Config, work: real) returns (x: real)
    ensures x == AtRate(cfg, work) == work * cfg.ppsRate * cfg.magnitude
  {
    x := AtRate(cfg, work);
  }

  lemma {:induction false} RangeCount(credits: seq<Range>, m: Miner)
    ensures RangesOf(credits, m) <= |credits|
    decreases |credits|
  {
    if credits != [] {
      RangeCount(credits[..|credits| - 1], m);
    }
  }

  /** Every committed range goes from the old cursor to the new one, and raises each miner's
      balance and payouts by its work logged in the range at the rate, rounded to the nearest
      unit. */
  lemma RangeCreditedAtRate(cfg: Config, s: Sys, step: Step, m: Miner)
    returns (gain: int, earned: real)
    requires cfg.magnitude > 0.0 && Reachable(cfg, s) && cfg.mode == PPS
    requires (step.Apply? || step.ResumeApply?) && Enabled(cfg, s, step)
    ensures
      var t := Do(cfg, s, step);
      && Get(t.store.balances, m) + Get(t.store.payouts, m)
         == Get(s.store.balances, m) + Get(s.store.payouts, m) + gain
      && earned == MinerWork(Between(s.hist, s.store.cursor, t.store.cursor), m) * cfg.ppsRate * cfg.magnitude
      && NearestUnits(gain, earned)
  {
    hide *;
    var t := Do(cfg, s, step);
    ReachableInv(cfg, s);
    Clauses(cfg, s);
    StepKeepsInv(cfg, s, step);
    Clauses(cfg, t);
    NoAwardsInPps(cfg, s);
    var c := AddsRange(cfg, s, step);
    OnlyCredits(cfg, s, m);
    OnlyCredits(cfg, t, m);
    OneMoreCredit(cfg, s.credits, c, m);
    LastRange(t.store.cursor, t.hist, s.credits, c);
    LastRange0(s.store.cursor, s.hist, s.credits);
    assert c.work == Totals(Between(s.hist, s.store.cursor, t.store.cursor));
    gain := Get(PpsRewards(cfg, c.work), m);
    RewardIsRate(cfg, Between(s.hist, s.store.cursor, t.store.cursor), m);
    earned := EarnedIs(cfg, Between(s.hist, s.store.cursor, t.store.cursor), m);
  }

  lemma EarnedIs(cfg: Config, es: seq<Entry>, m: Miner) returns (x: real)
    ensures x == RateOf(cfg, es, m) == MinerWork(es, m) * cfg.ppsRate * cfg.magnitude
  {
    x := RateOf(cfg, es, m);
  }

  lemma AddsRange(cfg: Config, s: Sys, step: Step) returns (c: Range)
    requires cfg.magnitude > 0.0 && (step.Apply? || step.ResumeApply?) && Enabled(cfg, s, step)
    requires s.awards == [] && (s.payer.Committing? || s.payer.Resume? ==> s.plan.awards == [])
    ensures
      var t := Do(cfg, s, step);
      t.credits == s.credits + [c] && t.hist == s.hist && t.awards == []
  {
    hide Commit, MakeUpdate, WriterExec, Classified, Finished, OrphanUpdate, PpsRewards, Listing, Withhold;
    hide Totals, After, MaxSeq;
    c := Range(s.plan.lo, s.plan.hi, s.plan.work);
  }

  lemma OneMoreCredit(cfg: Config, credits: seq<Range>, c: Range, m: Miner)
    requires cfg.magnitude > 0.0
    ensures CreditSum(cfg, credits + [c], m) == CreditSum(cfg, credits, m) + Get(PpsRewards(cfg, c.work), m)
  {
    hide PpsRewards;
    assert (credits + [c])[..|credits|] == credits;
  }

  lemma LastRange0(cursor: nat, hist: seq<Entry>, credits: seq<Range>)
    requires CreditInv(cursor, hist, credits)
    ensures cursor == CreditedBefore(credits, |credits|)
  {
    hide Totals, Between;
  }

  lemma LastRange(cursor: nat, hist: seq<Entry>, credits: seq<Range>, c: Range)
    requires CreditInv(cursor, hist, credits + [c])
    ensures c.hi == cursor && c.lo == CreditedBefore(credits, |credits|)
    ensures c.work == Totals(Between(hist, c.lo, c.hi))
  {
    hide Totals, Between;
    var n, next := |credits|, credits + [c];
    assert next[n] == c;
    assert CreditedBefore(next, n) == CreditedBefore(credits, n);
    assert next[n].work == Totals(Between(hist, next[n].lo, next[n].hi));
  }
}
