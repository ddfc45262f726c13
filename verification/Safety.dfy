/** Every step of the payout protocol keeps the invariant. */
module Safety {
  import opened Prelude
  import opened Shares
  import opened Ledger
  import opened Protocol
  import opened Invariant

  // ------------------------------------------------------------------
  // The share writer
  // ------------------------------------------------------------------

  lemma AppendAbove(hist: seq<Entry>, e: Entry)
    requires Increasing(hist) && e.seqNo > Top(hist)
    ensures Increasing(hist + [e])
    ensures forall x | x in hist :: x.seqNo < e.seqNo
  {
  }

  /** A newly logged share falls outside every range read before. */
  lemma BetweenStable(hist: seq<Entry>, e: Entry, lo: nat, hi: nat)
    requires hi < e.seqNo && lo <= hi
    ensures Between(hist + [e], lo, hi) == Between(hist, lo, hi)
  {
    AfterConcat(hist, [e], lo);
    UpToConcat(After(hist, lo), After([e], lo), hi);
    assert After([e], lo) == [e];
    assert UpTo([e], hi) == [];
  }

  lemma {:induction false} RangesStable(cursor: nat, hist: seq<Entry>, credits: seq<Range>, e: Entry)
    requires CreditInv(cursor, hist, credits) && cursor < e.seqNo
    ensures CreditInv(cursor, hist + [e], credits)
  {
    forall i | 0 <= i < |credits|
      ensures credits[i].work == Totals(Between(hist + [e], credits[i].lo, credits[i].hi))
    {
      RangeBelowCursor(cursor, hist, credits, i);
      BetweenStable(hist, e, credits[i].lo, credits[i].hi);
    }
  }

  lemma {:induction false} RangeBelowCursor(cursor: nat, hist: seq<Entry>, credits: seq<Range>, i: nat)
    requires CreditInv(cursor, hist, credits) && i < |credits|
    ensures credits[i].hi <= cursor
    decreases |credits| - i
  {
    if i + 1 < |credits| {
      RangeBelowCursor(cursor, hist, credits, i + 1);
    }
  }

  /** The clauses about money only see that the writer adds pending blocks and newer shares. */
  ghost predicate MoneyUntouched(s: Sys, t: Sys) {
    && t.store.balances == s.store.balances && t.store.payouts == s.store.payouts
    && t.store.cursor == s.store.cursor && t.store.intent == s.store.intent
    && t.store.confirmed == s.store.confirmed
    && s.store.pending <= t.store.pending
    && t.payer == s.payer && t.net == s.net && t.plan == s.plan && t.sent == s.sent
    && t.wallet == s.wallet && t.awards == s.awards && t.credits == s.credits
    && (t.hist == s.hist || exists e: Entry :: e.seqNo > Top(s.hist) && t.hist == s.hist + [e])
  }

  lemma RangeOkStable(cfg: Config, s: Sys, t: Sys, lo: nat, hi: nat, work: map<Miner, real>)
    requires MoneyUntouched(s, t)
    requires RangeOk(cfg, s.store.cursor, s.hist, lo, hi, work)
    ensures RangeOk(cfg, t.store.cursor, t.hist, lo, hi, work)
  {
    if t.hist != s.hist {
      var e: Entry :| e.seqNo > Top(s.hist) && t.hist == s.hist + [e];
      BetweenStable(s.hist, e, lo, hi);
    }
  }

  lemma RunOkStable(cfg: Config, s: Sys, t: Sys, run: Run)
    requires cfg.magnitude > 0.0
    requires MoneyUntouched(s, t)
    requires RunOk(cfg, s.store, s.hist, run)
    ensures RunOk(cfg, t.store, t.hist, run)
  {
    hide RangeOk, AwardOk;
    RangeOkStable(cfg, s, t, run.lo, run.hi, run.work);
  }

  lemma PlanOkStable(cfg: Config, s: Sys, t: Sys, run: Run)
    requires cfg.magnitude > 0.0
    requires MoneyUntouched(s, t)
    requires PlanOk(cfg, s.store, s.hist, run)
    ensures PlanOk(cfg, t.store, t.hist, run)
  {
    hide RunOk;
    RunOkStable(cfg, s, t, run);
  }

  lemma ScanOkStable(cfg: Config, s: Sys, t: Sys, run: Run, todo: seq<Block>)
    requires cfg.magnitude > 0.0
    requires MoneyUntouched(s, t)
    requires ScanOk(cfg, s.store, s.hist, run, todo)
    ensures ScanOk(cfg, t.store, t.hist, run, todo)
  {
    hide RunOk;
    RunOkStable(cfg, s, t, run);
  }

  lemma CreditKept(s: Sys, t: Sys)
    requires MoneyUntouched(s, t)
    requires CreditInv(s.store.cursor, s.hist, s.credits) && s.store.cursor <= Top(s.hist)
    ensures CreditInv(t.store.cursor, t.hist, t.credits)
  {
    hide CreditInv;
    if t.hist != s.hist {
      var e: Entry :| e.seqNo > Top(s.hist) && t.hist == s.hist + [e];
      RangesStable(s.store.cursor, s.hist, s.credits, e);
    }
  }

  lemma IntentKept(cfg: Config, s: Sys, t: Sys)
    requires cfg.magnitude > 0.0
    requires MoneyUntouched(s, t)
    requires IntentInv(cfg, s)
    ensures IntentInv(cfg, t)
  {
    hide PlanOk, UpdateOk;
    if s.store.intent.Intent? {
      PlanOkStable(cfg, s, t, s.plan);
    }
  }

  lemma PayerKept(cfg: Config, s: Sys, t: Sys)
    requires cfg.magnitude > 0.0
    requires MoneyUntouched(s, t)
    requires PayerInv(cfg, s)
    ensures PayerInv(cfg, t)
  {
    hide PlanOk, ScanOk, UpdateOk, RangeOk;
    match s.payer
    case SharesRead(lo, work, hi) => RangeOkStable(cfg, s, t, lo, hi, work);
    case Seeded(run) => ScanOkStable(cfg, s, t, run, []);
    case Scan(run, todo) => ScanOkStable(cfg, s, t, run, todo);
    case Planning(run, _) => PlanOkStable(cfg, s, t, run);
    case Committing(_) => PlanOkStable(cfg, s, t, s.plan);
    case _ =>
  }

  lemma MoneyKept(cfg: Config, s: Sys, t: Sys)
    requires cfg.magnitude > 0.0
    requires MoneyUntouched(s, t)
    requires s.store.cursor <= Top(s.hist)
    requires LedgerInv(cfg, s.store, s.awards, s.credits) && CreditInv(s.store.cursor, s.hist, s.credits)
    requires IntentInv(cfg, s) && PayerInv(cfg, s) && WalletInv(s)
    ensures LedgerInv(cfg, t.store, t.awards, t.credits) && CreditInv(t.store.cursor, t.hist, t.credits)
    ensures IntentInv(cfg, t) && PayerInv(cfg, t) && WalletInv(t)
  {
    assert LedgerInv(cfg, t.store, t.awards, t.credits) by {
      hide CreditInv, IntentInv, PayerInv, WalletInv, AwardsOk, AwardSum, CreditSum;
    }
    assert WalletInv(t) by {
      hide LedgerInv, CreditInv, IntentInv, PayerInv, WalletSum, ExactlyOnce;
    }
    hide LedgerInv, CreditInv, IntentInv, PayerInv, WalletInv;
    CreditKept(s, t);
    IntentKept(cfg, s, t);
    PayerKept(cfg, s, t);
  }

  lemma CursorBelowTop(cfg: Config, s: Sys)
    requires LogInv(cfg, s.store.log, s.store.lastSeq, s.store.cursor, s.hist)
    ensures s.store.cursor <= Top(s.hist) <= s.store.lastSeq
  {
    if s.hist != [] { assert s.hist[|s.hist| - 1] in s.hist; }
  }

  lemma BeginKeepsInv(cfg: Config, s: Sys, share: Share, accepted: bool)
    requires cfg.magnitude > 0.0
    requires Inv(cfg, s) && Enabled(cfg, s, WBegin(share, accepted))
    ensures Inv(cfg, Do(cfg, s, WBegin(share, accepted)))
  {
    hide LogInv, LedgerInv, CreditInv, IntentInv, PayerInv, WalletInv, RoundInv, BlockInv, CountedInv, WriterInv;
    var t := Do(cfg, s, WBegin(share, accepted));
    CursorBelowTop(cfg, s);
    MarksNumbered(s);
    BeginWriter(cfg, s, share, accepted);
    hide Enabled, Do, MoneyUntouched;
    MoneyKept(cfg, s, t);
    BlockKept(s, t);
  }

  lemma MarksNumbered(s: Sys)
    requires BlockInv(s.store, s.tally, s.seals, s.dropped, s.found)
    ensures forall b | b in s.found :: b.mark <= s.store.lastSeq
  {
    hide SolvedBy, SettledHeight;
  }

  lemma BeginWriter(cfg: Config, s: Sys, share: Share, accepted: bool)
    requires cfg.magnitude > 0.0 && WriterInv(cfg, s) && CountedInv(s.hist, s.tally)
    requires LogInv(cfg, s.store.log, s.store.lastSeq, s.store.cursor, s.hist)
    requires forall b | b in s.found :: b.mark <= s.store.lastSeq
    requires Enabled(cfg, s, WBegin(share, accepted))
    ensures
      var t := Do(cfg, s, WBegin(share, accepted));
      && t == s.(store := s.store.(lastSeq := t.store.lastSeq), writer := t.writer)
      && s.store.lastSeq <= t.store.lastSeq && WriterInv(cfg, t) && MoneyUntouched(s, t)
      && LogInv(cfg, t.store.log, t.store.lastSeq, t.store.cursor, t.hist)
  {
    BeginIs(cfg, s, share, accepted);
    CursorBelowTop(cfg, s);
    hide Enabled, Do, MoneyUntouched, Increasing, AllNonNegative, IsTail, After, Top;
  }

  lemma BeginIs(cfg: Config, s: Sys, share: Share, accepted: bool)
    requires cfg.magnitude > 0.0 && Enabled(cfg, s, WBegin(share, accepted))
    ensures
      var t, n := Do(cfg, s, WBegin(share, accepted)), s.store.lastSeq + 1;
      && s.writer.Free? && share.diff >= 0.0 && MoneyUntouched(s, t)
      && t == if share.valid then s.(store := s.store.(lastSeq := n), writer := Busy(share, accepted, n, ToLog))
              else s
  {
    hide Top, Recordable;
  }

  /** BlockInv does not look at the log or at any round. */
  lemma BlockKept(s: Sys, t: Sys)
    requires BlockInv(s.store, s.tally, s.seals, s.dropped, s.found)
    requires t.store.pending == s.store.pending && t.store.confirmed == s.store.confirmed
    requires t.store.orphaned == s.store.orphaned
    requires t.seals == s.seals && t.dropped == s.dropped && t.found == s.found && s.tally <= t.tally
    requires s.store.lastSeq <= t.store.lastSeq
    ensures BlockInv(t.store, t.tally, t.seals, t.dropped, t.found)
  {
    hide SolvedBy;
    forall b | b in t.found ensures SolvedBy(t.tally, t.seals, b) {
      SolvedByGrows(s.tally, t.tally, s.seals, t.seals, b);
    }
    forall h | h in t.dropped ensures SettledHeight(t.store, h) {
      assert SettledHeight(s.store, h);
    }
  }

  /** More shares and more seals leave a block solved. */
  lemma SolvedByGrows(tally: seq<Entry>, tally': seq<Entry>, seals: seq<Seal>, seals': seq<Seal>, b: Block)
    requires SolvedBy(tally, seals, b) && tally <= tally' && seals <= seals'
    ensures SolvedBy(tally', seals', b)
  {
    var i: nat :| SolvedAt(tally, seals, b, i);
    assert SolvedAt(tally', seals', b, i);
  }

  lemma AfterOne(e: Entry, s: nat)
    ensures After([e], s) == if e.seqNo > s then [e] else []
    ensures UpTo([e], s) == if e.seqNo > s then [] else [e]
  {
  }

  /** ZADD with a fresh highest score appends. */
  lemma ZAddAppends(log: seq<Entry>, e: Entry)
    requires forall x | x in log :: x.seqNo < e.seqNo
    ensures ZAdd(log, e) == log + [e]
  {
    UpToAll(log, e.seqNo);
  }

  lemma AfterSubset(log: seq<Entry>, s: nat)
    ensures forall x | x in After(log, s) :: x in log
  {
  }

  lemma LogAppended(cfg: Config, log: seq<Entry>, lastSeq: nat, cursor: nat, hist: seq<Entry>, e: Entry)
    requires LogInv(cfg, log, lastSeq, cursor, hist)
    requires Top(hist) < e.seqNo <= lastSeq && e.diff >= 0.0
    ensures ZAdd(log, e) == log + [e]
    ensures LogInv(cfg, log + [e], lastSeq, cursor, hist + [e])
  {
    hide LogInv, ZAdd;
    if cfg.mode == PPS {
      PpsLogAppended(cfg, log, lastSeq, cursor, hist, e);
    } else {
      CappedLogAppended(cfg, log, lastSeq, cursor, hist, e);
    }
    ZAddAppends(log, e);
  }

  lemma PpsLogAppended(cfg: Config, log: seq<Entry>, lastSeq: nat, cursor: nat, hist: seq<Entry>, e: Entry)
    requires LogInv(cfg, log, lastSeq, cursor, hist) && cfg.mode == PPS
    requires Top(hist) < e.seqNo <= lastSeq && e.diff >= 0.0
    ensures LogInv(cfg, log + [e], lastSeq, cursor, hist + [e])
    ensures forall x | x in log :: x.seqNo < e.seqNo
  {
    hide After, AllNonNegative, Increasing, IsTail;
    AppendAbove(hist, e);
    OneMoreLogged(hist, e);
    NumberedUpTo(hist, e, lastSeq);
    AfterConcat(hist, [e], cursor);
    AfterOne(e, cursor);
    AfterSubset(hist, cursor);
  }

  lemma CappedLogAppended(cfg: Config, log: seq<Entry>, lastSeq: nat, cursor: nat, hist: seq<Entry>, e: Entry)
    requires LogInv(cfg, log, lastSeq, cursor, hist) && cfg.mode != PPS
    requires Top(hist) < e.seqNo <= lastSeq && e.diff >= 0.0
    ensures LogInv(cfg, log + [e], lastSeq, cursor, hist + [e])
    ensures forall x | x in log :: x.seqNo < e.seqNo
  {
    hide AllNonNegative, IsTail, After, Increasing;
    AppendAbove(hist, e);
    OneMoreLogged(hist, e);
    NumberedUpTo(hist, e, lastSeq);
    TailGrows(log, hist, e);
    TailIn(log, hist);
  }

  lemma NumberedUpTo(hist: seq<Entry>, e: Entry, lastSeq: nat)
    requires (forall x | x in hist :: 0 < x.seqNo <= lastSeq) && Top(hist) < e.seqNo <= lastSeq
    ensures forall x | x in hist + [e] :: 0 < x.seqNo <= lastSeq
    ensures Top(hist) < e.seqNo == Top(hist + [e])
  {
  }

  lemma OneMoreLogged(hist: seq<Entry>, e: Entry)
    requires AllNonNegative(hist) && e.diff >= 0.0
    ensures AllNonNegative(hist + [e])
  {
  }

  lemma TailGrows(log: seq<Entry>, hist: seq<Entry>, e: Entry)
    requires IsTail(log, hist)
    ensures IsTail(log + [e], hist + [e])
  {
    var d := |hist| - |log|;
    assert (hist + [e])[d..] == hist[d..] + [e];
  }

  lemma TailIn(log: seq<Entry>, hist: seq<Entry>)
    requires IsTail(log, hist)
    ensures forall e | e in log :: e in hist
  {
  }

  lemma TailOfTail(log: seq<Entry>, hist: seq<Entry>, n: nat)
    requires IsTail(log, hist) && n <= |log|
    ensures IsTail(log[|log| - n..], hist)
  {
    assert log[|log| - n..] == hist[|hist| - n..];
  }

  lemma LogTrimmed(cfg: Config, log: seq<Entry>, lastSeq: nat, cursor: nat, hist: seq<Entry>)
    requires LogInv(cfg, log, lastSeq, cursor, hist) && cfg.mode != PPS
    ensures LogInv(cfg, KeepNewest(log, cfg.cap), lastSeq, cursor, hist)
  {
    hide Increasing, AllNonNegative, IsTail;
    if |log| > cfg.cap { TailOfTail(log, hist, cfg.cap); }
  }

  lemma LogStageKeepsInv(cfg: Config, s: Sys)
    requires cfg.magnitude > 0.0
    requires Inv(cfg, s) && s.writer.Busy? && s.writer.stage == ToLog
    ensures Inv(cfg, Do(cfg, s, WExec))
  {
    hide LogInv, LedgerInv, CreditInv, IntentInv, PayerInv, WalletInv, RoundInv, BlockInv;
    var t := Do(cfg, s, WExec);
    CursorBelowTop(cfg, s);
    LogAppended(cfg, s.store.log, s.store.lastSeq, s.store.cursor, s.hist, EntryOf(s.writer.share, s.writer.seqNo));
    MoneyKept(cfg, s, t);
    BlockKept(s, t);
  }

  lemma TrimStageKeepsInv(cfg: Config, s: Sys)
    requires cfg.magnitude > 0.0
    requires Inv(cfg, s) && s.writer.Busy? && s.writer.stage == ToTrim
    ensures Inv(cfg, Do(cfg, s, WExec))
  {
    hide LogInv, LedgerInv, CreditInv, IntentInv, PayerInv, WalletInv, RoundInv, BlockInv;
    var t := Do(cfg, s, WExec);
    CursorBelowTop(cfg, s);
    LogTrimmed(cfg, s.store.log, s.store.lastSeq, s.store.cursor, s.hist);
    MoneyKept(cfg, s, t);
    BlockKept(s, t);
  }

  lemma RoundCounted(st: Store, tally: seq<Entry>, seals: seq<Seal>, dropped: map<nat, nat>, e: Entry)
    requires RoundInv(st.current, st.rounds, tally, seals, dropped) && e.diff >= 0.0
    ensures RoundInv(Credit(st.current, e.miner, e.diff), st.rounds, tally + [e], seals, dropped)
    ensures OpenAt(seals) < |tally + [e]|
  {
    hide Totals, Credit, HoldsRound, AllNonNegative, SealsOk;
    var at, next := OpenAt(seals), tally + [e];
    assert next[at..] == tally[at..] + [e];
    TotalsAppend(tally[at..], e);
    OneMore(tally, seals, e);
    forall h, i: nat | HoldsRound(seals, dropped, h, i) ensures RoundKeyOf(st.rounds, next, seals, h, i) {
      assert RoundKeyOf(st.rounds, tally, seals, h, i);
      assert RoundShares(next, seals[i]) == RoundShares(tally, seals[i]);
    }
  }

  lemma OneMore(tally: seq<Entry>, seals: seq<Seal>, e: Entry)
    requires AllNonNegative(tally) && SealsOk(tally, seals) && e.diff >= 0.0
    ensures AllNonNegative(tally + [e]) && SealsOk(tally + [e], seals)
  {
  }

  lemma HeldSeal(seals: seq<Seal>, dropped: map<nat, nat>, h: nat, i: nat)
    requires HoldsRound(seals, dropped, h, i)
    ensures i < |seals| && seals[i].height == h
  {
  }

  lemma SealAt(tally: seq<Entry>, seals: seq<Seal>, i: nat)
    requires SealsOk(tally, seals) && i < |seals|
    ensures seals[i].lo == SealedBefore(seals, i) && SealedBefore(seals, i + 1) == seals[i].hi
    ensures seals[i].lo < seals[i].hi <= |tally|
  {
  }

  lemma CountedMore(hist: seq<Entry>, tally: seq<Entry>, e: Entry)
    requires CountedInv(hist, tally) && e in hist && forall x | x in tally :: x.seqNo < e.seqNo
    ensures CountedInv(hist, tally + [e])
  {
  }

  lemma CountStageKeepsInv(cfg: Config, s: Sys)
    requires cfg.magnitude > 0.0
    requires Inv(cfg, s) && s.writer.Busy? && s.writer.stage == ToCount
    ensures Inv(cfg, Do(cfg, s, WExec))
  {
    hide LogInv, LedgerInv, CreditInv, IntentInv, PayerInv, WalletInv, RoundInv, BlockInv, CountedInv;
    var t := Do(cfg, s, WExec);
    var e := EntryOf(s.writer.share, s.writer.seqNo);
    CursorBelowTop(cfg, s);
    RoundCounted(s.store, s.tally, s.seals, s.dropped, e);
    CountedMore(s.hist, s.tally, e);
    MoneyKept(cfg, s, t);
    BlockKept(s, t);
  }

  lemma SealsSealed(tally: seq<Entry>, seals: seq<Seal>, h: nat)
    requires SealsOk(tally, seals) && OpenAt(seals) < |tally|
    ensures SealsOk(tally, seals + [Seal(h, OpenAt(seals), |tally|)])
  {
    hide SealsOk;
    var seal := Seal(h, OpenAt(seals), |tally|);
    var n, next := |seals|, seals + [seal];
    forall i | 0 <= i < |next|
      ensures next[i].lo < next[i].hi <= |tally| && next[i].lo == SealedBefore(next, i)
    {
      if i < n {
        SealAt(tally, seals, i);
        assert next[i] == seals[i];
        if i > 0 { assert next[i - 1] == seals[i - 1]; }
      }
    }
    SealsAre(tally, next);
  }

  lemma SealsAre(tally: seq<Entry>, seals: seq<Seal>)
    requires forall i | 0 <= i < |seals| ::
             seals[i].lo < seals[i].hi <= |tally| && seals[i].lo == SealedBefore(seals, i)
    ensures SealsOk(tally, seals)
  {
  }

  /** A new seal takes over its height and leaves the other heights alone. */
  lemma SealTakesOver(seals: seq<Seal>, dropped: map<nat, nat>, seal: Seal, h: nat, i: nat)
    requires forall k | k in dropped :: dropped[k] <= |seals|
    ensures HoldsRound(seals + [seal], dropped, h, i)
            <==> if h == seal.height then i == |seals| else HoldsRound(seals, dropped, h, i)
  {
    var next := seals + [seal];
    assert next[|seals|] == seal;
    assert forall j | 0 <= j < |seals| :: next[j] == seals[j];
  }

  lemma RoundSealed(st: Store, tally: seq<Entry>, seals: seq<Seal>, dropped: map<nat, nat>, h: nat)
    requires RoundInv(st.current, st.rounds, tally, seals, dropped) && OpenAt(seals) < |tally|
    ensures st.current != map[]
    ensures
      var next := seals + [Seal(h, OpenAt(seals), |tally|)];
      RoundInv(map[], st.rounds[h := st.current], tally, next, dropped)
  {
    hide SealsOk, AllNonNegative, Totals, HoldsRound;
    var open, seal := tally[OpenAt(seals)..], Seal(h, OpenAt(seals), |tally|);
    var next, rounds := seals + [seal], st.rounds[h := st.current];
    OpenNotEmpty(open);
    assert tally[|tally|..] == [];
    NoShares();
    SealsSealed(tally, seals, h);
    assert RoundShares(tally, seal) == open;
    forall k, i: nat | HoldsRound(next, dropped, k, i) ensures RoundKeyOf(rounds, tally, next, k, i) {
      SealTakesOver(seals, dropped, seal, k, i);
      if k != h {
        assert RoundKeyOf(st.rounds, tally, seals, k, i);
        assert next[i] == seals[i];
      }
    }
    forall k | k in rounds ensures exists i: nat :: HoldsRound(next, dropped, k, i) {
      if k == h {
        SealTakesOver(seals, dropped, seal, k, |seals|);
      } else {
        var i: nat :| HoldsRound(seals, dropped, k, i);
        SealTakesOver(seals, dropped, seal, k, i);
      }
    }
  }

  lemma OpenNotEmpty(open: seq<Entry>)
    requires open != []
    ensures Totals(open) != map[]
  {
    assert open[|open| - 1].miner in Totals(open);
  }

  lemma NoShares()
    ensures Totals([]) == map[]
  {
  }

  lemma SealStageKeepsInv(cfg: Config, s: Sys)
    requires cfg.magnitude > 0.0
    requires Inv(cfg, s) && s.writer.Busy? && s.writer.stage == ToSeal
    ensures Inv(cfg, Do(cfg, s, WExec))
  {
    hide LogInv, LedgerInv, CreditInv, IntentInv, PayerInv, WalletInv, RoundInv, SolvedBy, SettledHeight, CountedInv;
    var t := Do(cfg, s, WExec);
    CursorBelowTop(cfg, s);
    RoundSealed(s.store, s.tally, s.seals, s.dropped, s.writer.share.height);
    forall b | b in s.found ensures SolvedBy(t.tally, t.seals, b) {
      SolvedByGrows(s.tally, t.tally, s.seals, t.seals, b);
    }
    forall h | h in t.dropped ensures SettledHeight(t.store, h) {
      SameSettled(s.store, t.store, h);
    }
    MoneyKept(cfg, s, t);
  }

  lemma SameSettled(st: Store, st': Store, h: nat)
    requires SettledHeight(st, h) && st.confirmed + st.orphaned <= st'.confirmed + st'.orphaned
    ensures SettledHeight(st', h)
  {
  }

  lemma AddStageKeepsInv(cfg: Config, s: Sys)
    requires cfg.magnitude > 0.0
    requires Inv(cfg, s) && s.writer.Busy? && s.writer.stage == ToAdd
    ensures Inv(cfg, Do(cfg, s, WExec))
  {
    hide LogInv, LedgerInv, CreditInv, IntentInv, PayerInv, WalletInv, RoundInv, CountedInv, SolvedBy, SettledHeight;
    var t := Do(cfg, s, WExec);
    var b := FoundBlock(s.writer.share, s.writer.seqNo);
    CursorBelowTop(cfg, s);
    LastSolves(t.tally, t.seals, b);
    forall h | h in t.dropped ensures SettledHeight(t.store, h) {
      SameSettled(s.store, t.store, h);
    }
    assert b !in s.found;
    MoneyKept(cfg, s, t);
  }

  lemma LastSolves(tally: seq<Entry>, seals: seq<Seal>, b: Block)
    requires seals != [] && seals[|seals| - 1].height == b.height && seals[|seals| - 1].hi == |tally| > 0
    requires tally[|tally| - 1].miner == b.finder && tally[|tally| - 1].seqNo == b.mark
    ensures SolvedBy(tally, seals, b)
  {
    assert SolvedAt(tally, seals, b, |seals| - 1);
  }

  lemma WriterKeepsInv(cfg: Config, s: Sys)
    requires cfg.magnitude > 0.0
    requires Inv(cfg, s) && s.writer.Busy?
    ensures Inv(cfg, Do(cfg, s, WExec))
  {
    hide Inv, Do;
    match s.writer.stage
    case ToLog => LogStageKeepsInv(cfg, s);
    case ToTrim => TrimStageKeepsInv(cfg, s);
    case ToCount => CountStageKeepsInv(cfg, s);
    case ToSeal => SealStageKeepsInv(cfg, s);
    case ToAdd => AddStageKeepsInv(cfg, s);
  }

  // ------------------------------------------------------------------
  // The payer, up to the settlement
  // ------------------------------------------------------------------

  /** Only the payer's position and locals change. */
  ghost predicate PayerMoves(s: Sys, t: Sys) {
    t == s.(payer := t.payer)
  }

  /** Moving the payer leaves every clause but its own in place. */
  lemma PayerMoved(cfg: Config, s: Sys, t: Sys)
    requires cfg.magnitude > 0.0
    requires Inv(cfg, s) && PayerMoves(s, t) && PayerInv(cfg, t)
    ensures Inv(cfg, t)
  {
    hide LogInv, LedgerInv, CreditInv, PayerInv, RoundInv, BlockInv, CountedInv, WriterInv, IntentInv, WalletInv;
    SameWriter(cfg, s, t);
    SameIntent(cfg, s, t);
    WalletKept(s, t);
  }

  lemma SameWriter(cfg: Config, s: Sys, t: Sys)
    requires WriterInv(cfg, s) && t.writer == s.writer && t.store.lastSeq == s.store.lastSeq
    requires t.hist == s.hist && t.tally == s.tally && t.seals == s.seals && t.found == s.found
    ensures WriterInv(cfg, t)
  {
  }

  lemma SameIntent(cfg: Config, s: Sys, t: Sys)
    requires cfg.magnitude > 0.0 && IntentInv(cfg, s)
    requires t.store == s.store && t.hist == s.hist && t.net == s.net && t.plan == s.plan && t.sent == s.sent
    ensures IntentInv(cfg, t)
  {
    hide PlanOk, UpdateOk;
  }

  lemma WalletKept(s: Sys, t: Sys)
    requires WalletInv(s) && t.wallet == s.wallet && t.sent == s.sent
    requires t.store.payouts == s.store.payouts && t.store.cursor == s.store.cursor
    requires t.store.confirmed == s.store.confirmed
    requires s.sent && s.store.intent.Intent? ==>
               t.store.intent.Intent? && t.store.intent.update == s.store.intent.update && t.plan == s.plan
    ensures WalletInv(t)
  {
    hide WalletSum, ExactlyOnce, Elems;
  }

  lemma {:induction false} MaxSeqIsTop(log: seq<Entry>, cursor: nat)
    requires Increasing(log) && forall e | e in log :: e.seqNo > cursor
    ensures MaxSeq(log, cursor) == if log == [] then cursor else log[|log| - 1].seqNo
  {
    if log != [] {
      var init := log[..|log| - 1];
      MaxSeqIsTop(init, cursor);
      assert log[|log| - 1] in log;
    }
  }

  /** Reading the log after the cursor sees every share up to the newest logged one. */
  lemma SharesReadOk(cfg: Config, log: seq<Entry>, lastSeq: nat, cursor: nat, hist: seq<Entry>)
    requires LogInv(cfg, log, lastSeq, cursor, hist) && cfg.mode == PPS
    ensures
      var newer := After(log, cursor);
      RangeOk(cfg, cursor, hist, cursor, MaxSeq(newer, cursor), Totals(newer))
  {
    hide After, UpTo, MaxSeq, Totals, AllNonNegative;
    var newer := After(log, cursor);
    AfterAfter(hist, cursor, cursor);
    var k := SplitAt(hist, cursor);
    assert newer == hist[k..];
    MaxSeqIsTop(newer, cursor);
    UpToAll(newer, MaxSeq(newer, cursor));
  }

  lemma EmptyRangeOk(cfg: Config, log: seq<Entry>, lastSeq: nat, cursor: nat, hist: seq<Entry>)
    requires LogInv(cfg, log, lastSeq, cursor, hist) && cfg.mode != PPS
    ensures RangeOk(cfg, cursor, hist, 0, 0, map[])
  {
    hide Increasing, AllNonNegative;
    AfterAll(hist, 0);
    assert UpTo(hist, 0) == [];
  }

  lemma ReconcileKeepsInv(cfg: Config, s: Sys)
    requires cfg.magnitude > 0.0
    requires Inv(cfg, s) && Enabled(cfg, s, Reconcile)
    ensures Inv(cfg, Do(cfg, s, Reconcile))
  {
    hide LogInv, LedgerInv, CreditInv, RoundInv, BlockInv, CountedInv, WriterInv, IntentInv, PayerInv, WalletInv;
    hide Do, Enabled;
    ReconcilePayer(cfg, s);
    hide Inv;
    PayerMoved(cfg, s, Do(cfg, s, Reconcile));
  }

  lemma ReconcilePayer(cfg: Config, s: Sys)
    requires cfg.magnitude > 0.0 && IntentInv(cfg, s) && Enabled(cfg, s, Reconcile)
    ensures PayerMoves(s, Do(cfg, s, Reconcile)) && PayerInv(cfg, Do(cfg, s, Reconcile))
  {
    hide PlanOk, UpdateOk, Commit, Committed, MakeUpdate, WriterExec, Classified, Finished, OrphanUpdate, PpsRewards;
    hide Listing, Withhold, Totals, After, MaxSeq;
  }

  lemma SetOfListing(pending: set<Block>, list: seq<Block>)
    requires Elems(list) == pending && |list| == |pending|
    ensures NoDuplicates(list)
    ensures forall b | b in list :: b in pending
  {
    assert forall b | b in list :: b in Elems(list);
    if i, j :| 0 <= i < j < |list| && list[i] == list[j] {
      var rest := list[..j] + list[j + 1..];
      assert forall x | x in list :: x in rest by {
        forall x | x in list ensures x in rest {
          var k :| 0 <= k < |list| && list[k] == x;
          if k < j { assert rest[k] == x; }
          else if k > j { assert rest[k - 1] == x; }
          else { assert rest[i] == x; }
        }
      }
      assert Elems(rest) == pending;
      ElemsBound(rest);
      assert false;
    }
  }

  lemma {:induction false} ElemsBound<T>(s: seq<T>)
    ensures |Elems(s)| <= |s|
  {
    if s != [] {
      ElemsBound(s[1..]);
      assert Elems(s) == {s[0]} + Elems(s[1..]);
    }
  }

  lemma SeededListed(cfg: Config, st: Store, hist: seq<Entry>, run: Run, list: seq<Block>)
    requires cfg.magnitude > 0.0 && cfg.mode == PPS
    requires ScanOk(cfg, st, hist, run, []) && run.confirmed == [] && run.orphaned == []
    requires NoDuplicates(list) && forall b | b in list :: b in st.pending
    ensures ScanOk(cfg, st, hist, run, list)
  {
    hide RunOk;
  }

  lemma ListPendingPayer(cfg: Config, s: Sys, list: seq<Block>)
    requires cfg.magnitude > 0.0
    requires PayerInv(cfg, s) && Enabled(cfg, s, ListPending(list))
    ensures PayerMoves(s, Do(cfg, s, ListPending(list))) && PayerInv(cfg, Do(cfg, s, ListPending(list)))
  {
    hide NoDuplicates, Elems, PlanOk, UpdateOk, ScanOk, RangeOk;
    SetOfListing(s.store.pending, list);
    if s.payer.Seeded? {
      SeededListed(cfg, s.store, s.hist, s.payer.run, list);
    }
  }

  lemma ListPendingKeepsInv(cfg: Config, s: Sys, list: seq<Block>)
    requires cfg.magnitude > 0.0
    requires Inv(cfg, s) && Enabled(cfg, s, ListPending(list))
    ensures Inv(cfg, Do(cfg, s, ListPending(list)))
  {
    hide LogInv, LedgerInv, CreditInv, RoundInv, BlockInv, CountedInv, WriterInv, IntentInv, PayerInv, WalletInv;
    hide Do, Enabled;
    ListPendingPayer(cfg, s, list);
    hide Inv;
    PayerMoved(cfg, s, Do(cfg, s, ListPending(list)));
  }

  lemma ReadPayer(cfg: Config, s: Sys, step: Step)
    requires cfg.magnitude > 0.0 && (step.ReadCursor? || step.ReadShares?)
    requires LogInv(cfg, s.store.log, s.store.lastSeq, s.store.cursor, s.hist)
    requires PayerInv(cfg, s) && Enabled(cfg, s, step)
    ensures PayerMoves(s, Do(cfg, s, step)) && PayerInv(cfg, Do(cfg, s, step))
  {
    hide LogInv, PlanOk, UpdateOk, RangeOk, ScanOk, RunOk, NoDuplicates, Totals, After, MaxSeq;
    hide Commit, Committed, MakeUpdate, WriterExec, Classified, Finished, OrphanUpdate, PpsRewards, Listing, Withhold;
    if step.ReadShares? {
      SharesReadOk(cfg, s.store.log, s.store.lastSeq, s.store.cursor, s.hist);
    }
  }

  lemma ReadKeepsInv(cfg: Config, s: Sys, step: Step)
    requires cfg.magnitude > 0.0
    requires step.ReadCursor? || step.ReadShares?
    requires Inv(cfg, s) && Enabled(cfg, s, step)
    ensures Inv(cfg, Do(cfg, s, step))
  {
    hide LogInv, LedgerInv, CreditInv, RoundInv, BlockInv, CountedInv, WriterInv, IntentInv, PayerInv, WalletInv;
    hide Do, Enabled;
    ReadPayer(cfg, s, step);
    hide Inv;
    PayerMoved(cfg, s, Do(cfg, s, step));
  }

  lemma FreshRunOk(cfg: Config, st: Store, hist: seq<Entry>, lo: nat, hi: nat, work: map<Miner, real>)
    requires cfg.magnitude > 0.0
    requires RangeOk(cfg, st.cursor, hist, lo, hi, work)
    ensures RunOk(cfg, st, hist,
            NO_RUN.(balances := st.balances, rewards := PpsRewards(cfg, work), lo := lo, hi := hi, work := work))
  {
    hide RangeOk;
  }

  lemma FreshScanOk(cfg: Config, st: Store, hist: seq<Entry>, run: Run, todo: seq<Block>)
    requires cfg.magnitude > 0.0
    requires RunOk(cfg, st, hist, run) && run.awards == [] && run.confirmed == [] && run.orphaned == []
    requires run.deleteRounds == []
    requires NoDuplicates(todo) && forall b | b in todo :: b in st.pending
    ensures ScanOk(cfg, st, hist, run, todo)
  {
    hide RunOk;
  }

  lemma SeedPayer(cfg: Config, s: Sys)
    requires cfg.magnitude > 0.0
    requires LogInv(cfg, s.store.log, s.store.lastSeq, s.store.cursor, s.hist)
    requires PayerInv(cfg, s) && Enabled(cfg, s, SeedBalances)
    ensures PayerMoves(s, Do(cfg, s, SeedBalances)) && PayerInv(cfg, Do(cfg, s, SeedBalances))
  {
    hide LogInv, PlanOk, UpdateOk, RangeOk, ScanOk, RunOk, NoDuplicates;
    var t := Do(cfg, s, SeedBalances);
    if s.payer.Listed? {
      EmptyRangeOk(cfg, s.store.log, s.store.lastSeq, s.store.cursor, s.hist);
      assert PpsRewards(cfg, map[]) == map[];
      FreshRunOk(cfg, s.store, s.hist, 0, 0, map[]);
      FreshScanOk(cfg, s.store, s.hist, t.payer.run, t.payer.todo);
    } else {
      FreshRunOk(cfg, s.store, s.hist, s.payer.lo, s.payer.hi, s.payer.work);
      EmptyListDistinct();
      FreshScanOk(cfg, s.store, s.hist, t.payer.run, []);
    }
  }

  lemma EmptyListDistinct()
    ensures NoDuplicates<Block>([])
  {
  }

  lemma SeedKeepsInv(cfg: Config, s: Sys)
    requires cfg.magnitude > 0.0
    requires Inv(cfg, s) && Enabled(cfg, s, SeedBalances)
    ensures Inv(cfg, Do(cfg, s, SeedBalances))
  {
    hide LogInv, LedgerInv, CreditInv, RoundInv, BlockInv, CountedInv, WriterInv, IntentInv, PayerInv, WalletInv;
    hide Do, Enabled;
    SeedPayer(cfg, s);
    hide Inv;
    PayerMoved(cfg, s, Do(cfg, s, SeedBalances));
  }

  // ------------------------------------------------------------------
  // Attribution
  // ------------------------------------------------------------------

  lemma {:induction false} TotalsNonNegative(es: seq<Entry>)
    requires AllNonNegative(es)
    ensures NonNegative(Totals(es))
  {
    if es != [] {
      TotalsNonNegative(es[..|es| - 1]);
    }
  }

  lemma SplitAwardOk(cfg: Config, b: Block, reward: nat, shares: map<Miner, real>, log: seq<Entry>)
    requires cfg.mode != Solo && NonNegative(shares)
    requires SplitByShares(reward, shares) != map[]
    ensures AwardOk(cfg, Award(b, reward, SplitByShares(reward, shares), log))
  {
    SplitConserves(reward, shares);
    var out := SplitByShares(reward, shares);
    assert |out| == |out.Keys| && |shares| == |shares.Keys|;
  }

  lemma SoloAwardOk(cfg: Config, b: Block, reward: nat, log: seq<Entry>)
    requires cfg.mode == Solo
    ensures AwardOk(cfg, Award(b, reward, map[b.finder := reward], log))
  {
    var dist := map[b.finder := reward];
    assert dist.Keys - {b.finder} == {};
    SumOverPick(dist.Keys, dist, b.finder);
  }

  lemma WindowNonNegative(cfg: Config, s: Sys, mark: int)
    requires LogInv(cfg, s.store.log, s.store.lastSeq, s.store.cursor, s.hist) && cfg.mode != PPS
    ensures NonNegative(WindowShares(s.store.log, mark, cfg.window))
  {
    hide Increasing, IsTail;
    var log := s.store.log;
    TailIn(log, s.hist);
    UpToSubset(log, mark);
    var es := UpTo(log, mark);
    var w := es[WindowStart(es, cfg.window)..];
    assert forall e | e in w :: e in es;
    TotalsNonNegative(w);
  }

  /** Whatever the pay mode, a non-empty attribution conserves the reward. */
  lemma AttributeConserves(cfg: Config, s: Sys, b: Block, reward: nat)
    requires LogInv(cfg, s.store.log, s.store.lastSeq, s.store.cursor, s.hist)
    requires RoundInv(s.store.current, s.store.rounds, s.tally, s.seals, s.dropped)
    requires cfg.mode != PPS
    requires Attribute(cfg, s.store, b, reward) != map[]
    ensures AwardOk(cfg, Award(b, reward, Attribute(cfg, s.store, b, reward), s.store.log))
  {
    hide LogInv, RoundInv, AwardOk, SplitByShares, WindowShares, RoundContrib, NonNegative;
    if cfg.mode == Solo {
      SoloAwardOk(cfg, b, reward, s.store.log);
    } else if cfg.mode == PPLNS && cfg.window > 0.0 {
      WindowNonNegative(cfg, s, b.mark);
      SplitAwardOk(cfg, b, reward, WindowShares(s.store.log, b.mark, cfg.window), s.store.log);
    } else {
      RoundNonNegative(s.store, s.tally, s.seals, s.dropped, b.height);
      SplitAwardOk(cfg, b, reward, RoundContrib(s.store, b.height), s.store.log);
    }
  }

  lemma UpToSubset(log: seq<Entry>, s: int)
    ensures forall x | x in UpTo(log, s) :: x in log
  {
  }

  lemma RoundNonNegative(st: Store, tally: seq<Entry>, seals: seq<Seal>, dropped: map<nat, nat>, h: nat)
    requires RoundInv(st.current, st.rounds, tally, seals, dropped)
    ensures NonNegative(RoundContrib(st, h))
  {
    hide Totals, SealsOk, HoldsRound;
    if h in st.rounds {
      var i: nat :| HoldsRound(seals, dropped, h, i);
      assert RoundKeyOf(st.rounds, tally, seals, h, i);
      TotalsNonNegative(RoundShares(tally, seals[i]));
    }
  }

  // ------------------------------------------------------------------
  // The scan over the pending blocks
  // ------------------------------------------------------------------

  lemma DistinctMoves(a: seq<Block>, b: seq<Block>, c: seq<Block>)
    requires Distinct(a, b, c) && c != []
    ensures Distinct(a, b, c[1..])
    ensures Distinct(a + [c[0]], b, c[1..])
    ensures Distinct(a, b + [c[0]], c[1..])
  {
    assert c[0] in c;
    assert forall i | 0 <= i < |a| :: a[i] in a;
    assert forall i | 0 <= i < |b| :: b[i] in b;
    assert forall x | x in c[1..] :: x in c && x != c[0];
    assert forall x | x in a + [c[0]] :: x in a || x == c[0];
    assert forall x | x in b + [c[0]] :: x in b || x == c[0];
  }

  lemma HeightSetAppend(bs: seq<Block>, b: Block)
    ensures HeightSet(bs + [b]) == HeightSet(bs) + {b.height}
  {
    assert forall x | x in bs :: x in bs + [b];
    assert b in bs + [b];
  }

  lemma ElemsConcat<T>(a: seq<T>, b: seq<T>)
    ensures Elems(a + b) == Elems(a) + Elems(b)
  {
  }

  lemma AwardBlocksAppend(awards: seq<Award>, a: Award)
    ensures AwardBlocks(awards + [a]) == AwardBlocks(awards) + [a.block]
  {
  }

  lemma OrphanOk(cfg: Config, st: Store, hist: seq<Entry>, run: Run, todo: seq<Block>)
    requires cfg.magnitude > 0.0 && todo != []
    requires ScanOk(cfg, st, hist, run, todo)
    ensures ScanOk(cfg, st, hist, Orphan(run, todo[0]), todo[1..])
  {
    var b, next := todo[0], Orphan(run, todo[0]);
    assert RunOk(cfg, st, hist, next);
    hide RunOk, Distinct, HeightSet, Elems;
    DistinctMoves(Taken(cfg, run), run.orphaned, todo);
    HeightSetAppend(run.orphaned, b);
    ElemsConcat(run.deleteRounds, [b.height]);
    assert Elems([b.height]) == {b.height} by { ElemsAre([b.height]); }
  }

  lemma ElemsAre(s: seq<nat>)
    ensures forall x :: x in Elems(s) <==> x in s
  {
  }

  lemma ConfirmOk(cfg: Config, st: Store, hist: seq<Entry>, run: Run, todo: seq<Block>)
    requires cfg.magnitude > 0.0 && todo != [] && cfg.mode == PPS
    requires ScanOk(cfg, st, hist, run, todo)
    ensures
      var b := todo[0];
      ScanOk(cfg, st, hist, run.(confirmed := run.confirmed + [b], deleteRounds := run.deleteRounds + [b.height]),
          todo[1..])
  {
    var b := todo[0];
    var next := run.(confirmed := run.confirmed + [b], deleteRounds := run.deleteRounds + [b.height]);
    assert RunOk(cfg, st, hist, next);
    hide RunOk, Distinct, HeightSet, Elems;
    DistinctMoves(run.confirmed, run.orphaned, todo);
    HeightSetAppend(run.confirmed, b);
    ElemsConcat(run.deleteRounds, [b.height]);
    assert Elems([b.height]) == {b.height} by { ElemsAre([b.height]); }
  }

  lemma AwardRunOk(cfg: Config, st: Store, hist: seq<Entry>, run: Run, a: Award)
    requires cfg.magnitude > 0.0 && cfg.mode != PPS
    requires RunOk(cfg, st, hist, run) && AwardOk(cfg, a)
    ensures RunOk(cfg, st, hist, run.(rewards := AddPaid(run.rewards, a.dist), awards := run.awards + [a]))
  {
    hide RangeOk, AwardOk;
    var next := run.(rewards := AddPaid(run.rewards, a.dist), awards := run.awards + [a]);
    assert next.awards[..|next.awards| - 1] == run.awards;
    forall m: Miner ensures Get(next.rewards, m) == AwardSum(next.awards, m) + Get(PpsRewards(cfg, next.work), m) {
      assert Get(next.rewards, m) == Get(run.rewards, m) + Get(a.dist, m);
    }
  }

  lemma AwardScanOk(cfg: Config, st: Store, hist: seq<Entry>, run: Run, todo: seq<Block>, a: Award)
    requires cfg.magnitude > 0.0 && todo != [] && cfg.mode != PPS
    requires ScanOk(cfg, st, hist, run, todo) && AwardOk(cfg, a) && a.block == todo[0]
    ensures ScanOk(cfg, st, hist, run.(rewards := AddPaid(run.rewards, a.dist), awards := run.awards + [a]), todo[1..])
  {
    hide RunOk, Distinct, HeightSet, Elems, AwardOk, AddPaid;
    AwardRunOk(cfg, st, hist, run, a);
    AwardBlocksAppend(run.awards, a);
    DistinctMoves(AwardBlocks(run.awards), run.orphaned, todo);
  }

  lemma SkipOk(cfg: Config, st: Store, hist: seq<Entry>, run: Run, todo: seq<Block>)
    requires cfg.magnitude > 0.0 && todo != []
    requires ScanOk(cfg, st, hist, run, todo)
    ensures ScanOk(cfg, st, hist, run, todo[1..])
  {
    hide RunOk, Distinct, HeightSet, Elems;
    DistinctMoves(Taken(cfg, run), run.orphaned, todo);
  }

  /** One turn of the scan, whatever the wallet answers. */
  lemma ClassifiedOk(cfg: Config, s: Sys, run: Run, todo: seq<Block>, o: Outcome)
    requires cfg.magnitude > 0.0 && todo != []
    requires LogInv(cfg, s.store.log, s.store.lastSeq, s.store.cursor, s.hist)
    requires RoundInv(s.store.current, s.store.rounds, s.tally, s.seals, s.dropped)
    requires ScanOk(cfg, s.store, s.hist, run, todo)
    ensures ScanOk(cfg, s.store, s.hist, Classified(cfg, s.store, run, todo[0], o), todo[1..])
  {
    hide LogInv, RoundInv, ScanOk, Attribute, AwardOk;
    match o
    case Retry => SkipOk(cfg, s.store, s.hist, run, todo);
    case Young => SkipOk(cfg, s.store, s.hist, run, todo);
    case Lost => OrphanOk(cfg, s.store, s.hist, run, todo);
    case Mature(reward) =>
      if cfg.mode == PPS {
        ConfirmOk(cfg, s.store, s.hist, run, todo);
      } else {
        var dist := Attribute(cfg, s.store, todo[0], reward);
        if dist == map[] {
          OrphanOk(cfg, s.store, s.hist, run, todo);
        } else {
          AttributeConserves(cfg, s, todo[0], reward);
          AwardScanOk(cfg, s.store, s.hist, run, todo, Award(todo[0], reward, dist, s.store.log));
        }
      }
  }

  lemma ClassifyPayer(cfg: Config, s: Sys, o: Outcome)
    requires cfg.magnitude > 0.0
    requires LogInv(cfg, s.store.log, s.store.lastSeq, s.store.cursor, s.hist)
    requires RoundInv(s.store.current, s.store.rounds, s.tally, s.seals, s.dropped)
    requires PayerInv(cfg, s) && Enabled(cfg, s, Classify(o))
    ensures PayerMoves(s, Do(cfg, s, Classify(o))) && PayerInv(cfg, Do(cfg, s, Classify(o)))
  {
    hide LogInv, RoundInv, PlanOk, UpdateOk, RangeOk, ScanOk, Classified;
    ClassifiedOk(cfg, s, s.payer.run, s.payer.todo, o);
  }

  lemma ClassifyKeepsInv(cfg: Config, s: Sys, o: Outcome)
    requires cfg.magnitude > 0.0
    requires Inv(cfg, s) && Enabled(cfg, s, Classify(o))
    ensures Inv(cfg, Do(cfg, s, Classify(o)))
  {
    hide LogInv, LedgerInv, CreditInv, RoundInv, BlockInv, CountedInv, WriterInv, IntentInv, PayerInv, WalletInv;
    hide Do, Enabled;
    ClassifyPayer(cfg, s, o);
    hide Inv;
    PayerMoved(cfg, s, Do(cfg, s, Classify(o)));
  }

  lemma FinishedOk(cfg: Config, st: Store, hist: seq<Entry>, run: Run)
    requires cfg.magnitude > 0.0 && cfg.mode != PPS
    requires ScanOk(cfg, st, hist, run, [])
    ensures PlanOk(cfg, st, hist, Finished(run))
  {
    hide RunOk, Distinct, HeightSet, Elems, AwardBlocks, Heights;
    FinishedRunOk(cfg, st, hist, run);
    var blocks := AwardBlocks(run.awards);
    assert [] + blocks == blocks;
    ElemsConcat(run.deleteRounds, Heights(blocks));
    HeightsElems(blocks);
    HeightSetEmpty();
  }

  lemma FinishedPpsOk(cfg: Config, st: Store, hist: seq<Entry>, run: Run)
    requires cfg.magnitude > 0.0 && cfg.mode == PPS
    requires ScanOk(cfg, st, hist, run, [])
    ensures PlanOk(cfg, st, hist, run)
  {
    hide RunOk, HeightSet, Elems;
  }

  lemma FinishedRunOk(cfg: Config, st: Store, hist: seq<Entry>, run: Run)
    requires cfg.magnitude > 0.0 && RunOk(cfg, st, hist, run)
    ensures RunOk(cfg, st, hist, Finished(run))
  {
    hide RangeOk, AwardOk, AwardSum, PpsRewards, AwardBlocks, Heights;
  }

  lemma HeightSetEmpty()
    ensures HeightSet([]) == {}
  {
  }

  lemma HeightsElems(bs: seq<Block>)
    ensures Elems(Heights(bs)) == HeightSet(bs)
  {
    forall b | b in bs ensures b.height in Elems(Heights(bs)) {
      var i :| 0 <= i < |bs| && bs[i] == b;
      assert Heights(bs)[i] == b.height;
    }
  }

  /** A run without matured blocks changes no amount. */
  lemma OrphanUpdateOk(cfg: Config, st: Store, hist: seq<Entry>, run: Run)
    requires cfg.magnitude > 0.0 && cfg.mode != PPS
    requires ScanOk(cfg, st, hist, run, []) && run.awards == []
    ensures PlanOk(cfg, st, hist, run) && UpdateOk(OrphanUpdate(run), run)
  {
    assert Finished(run) == run;
    FinishedOk(cfg, st, hist, run);
    hide PlanOk, Distinct, HeightSet;
    WorkEmpty(cfg, st, hist, run);
    hide RangeOk;
  }

  lemma FinishPayer(cfg: Config, s: Sys)
    requires cfg.magnitude > 0.0
    requires IntentInv(cfg, s) && PayerInv(cfg, s) && Enabled(cfg, s, FinishScan)
    ensures IntentInv(cfg, Do(cfg, s, FinishScan)) && PayerInv(cfg, Do(cfg, s, FinishScan))
    ensures
      var t := Do(cfg, s, FinishScan);
      t == s.(payer := t.payer, plan := t.plan) && !s.sent
  {
    hide PlanOk, UpdateOk, ScanOk, Finished;
    var run := s.payer.run;
    if cfg.mode == PPS {
      FinishedPpsOk(cfg, s.store, s.hist, run);
    } else if run.awards != [] {
      FinishedOk(cfg, s.store, s.hist, run);
    } else {
      OrphanUpdateOk(cfg, s.store, s.hist, run);
    }
  }

  lemma FinishKeepsInv(cfg: Config, s: Sys)
    requires cfg.magnitude > 0.0
    requires Inv(cfg, s) && Enabled(cfg, s, FinishScan)
    ensures Inv(cfg, Do(cfg, s, FinishScan))
  {
    hide LogInv, LedgerInv, CreditInv, RoundInv, BlockInv, CountedInv, WriterInv, IntentInv, PayerInv, WalletInv;
    hide Do, Enabled;
    var t := Do(cfg, s, FinishScan);
    FinishPayer(cfg, s);
    StoreButIntent(cfg, s, t);
    WalletKept(s, t);
  }

  /** Outside pps mode a run credits no share range. */
  lemma WorkEmpty(cfg: Config, st: Store, hist: seq<Entry>, run: Run)
    requires cfg.magnitude > 0.0 && cfg.mode != PPS
    requires RunOk(cfg, st, hist, run)
    ensures run.work == map[]
  {
    hide AwardOk, AwardSum;
    AfterAboveZero(hist);
    assert Between(hist, 0, 0) == [];
  }

  lemma {:induction false} AfterAboveZero(hist: seq<Entry>)
    ensures UpTo(After(hist, 0), 0) == []
  {
    if hist != [] {
      AfterAboveZero(hist[1..]);
      UpToConcat(if hist[0].seqNo > 0 then [hist[0]] else [], After(hist[1..], 0), 0);
    }
  }

  // ------------------------------------------------------------------
  // The settlement
  // ------------------------------------------------------------------

  /** Each attempt keeps new balance plus payment at old balance plus reward. */
  lemma MakeUpdateOk(cfg: Config, run: Run, k: nat, payable: set<Miner>)
    ensures UpdateOk(MakeUpdate(cfg, run, k, payable), run)
  {
    hide Sent;
    var u := MakeUpdate(cfg, run, k, payable);
    forall m: Miner
      ensures if m in u.balances then u.balances[m] + Get(u.paid, m) == Owed(run, m)
              else Get(u.paid, m) == 0 && Get(run.rewards, m) == 0
    {
      var n := Sent(cfg, run, k, payable, m);
    }
  }

  lemma PlanPayer(cfg: Config, s: Sys, payable: set<Miner>)
    requires cfg.magnitude > 0.0
    requires IntentInv(cfg, s) && PayerInv(cfg, s) && Enabled(cfg, s, Plan(payable))
    ensures IntentInv(cfg, Do(cfg, s, Plan(payable))) && PayerInv(cfg, Do(cfg, s, Plan(payable)))
    ensures
      var t := Do(cfg, s, Plan(payable));
      t == s.(store := s.store.(intent := t.store.intent), payer := t.payer, plan := t.plan) && !s.sent
  {
    hide PlanOk, UpdateOk, MakeUpdate, ScanOk, RangeOk, NoDuplicates;
    hide Commit, Committed, WriterExec, Classified, Finished, OrphanUpdate, PpsRewards, Listing, Withhold;
    hide Totals, After, MaxSeq;
    MakeUpdateOk(cfg, s.payer.run, s.payer.attempt, payable);
    PlanOkIntent(cfg, s.store, Do(cfg, s, Plan(payable)).store, s.hist, s.payer.run);
  }

  lemma PlanKeepsInv(cfg: Config, s: Sys, payable: set<Miner>)
    requires cfg.magnitude > 0.0
    requires Inv(cfg, s) && Enabled(cfg, s, Plan(payable))
    ensures Inv(cfg, Do(cfg, s, Plan(payable)))
  {
    hide LogInv, LedgerInv, CreditInv, RoundInv, BlockInv, CountedInv, WriterInv, IntentInv, PayerInv, WalletInv;
    hide Do, Enabled;
    var t := Do(cfg, s, Plan(payable));
    PlanPayer(cfg, s, payable);
    StoreButIntent(cfg, s, t);
    WalletKept(s, t);
  }

  /** The intent key plays no part in a plan. */
  lemma PlanOkIntent(cfg: Config, st: Store, st': Store, hist: seq<Entry>, run: Run)
    requires cfg.magnitude > 0.0
    requires st' == st.(intent := st'.intent)
    requires PlanOk(cfg, st, hist, run)
    ensures PlanOk(cfg, st', hist, run)
  {
    hide RangeOk, AwardOk, Distinct, HeightSet;
  }

  /** Clauses that never mention the intent survive a change of it. */
  lemma StoreButIntent(cfg: Config, s: Sys, t: Sys)
    requires cfg.magnitude > 0.0
    requires Inv(cfg, s)
    requires t.store == s.store.(intent := t.store.intent)
    requires t.writer == s.writer && t.awards == s.awards && t.credits == s.credits
    requires t.hist == s.hist && t.tally == s.tally && t.seals == s.seals && t.dropped == s.dropped
    requires t.found == s.found
    ensures LogInv(cfg, t.store.log, t.store.lastSeq, t.store.cursor, t.hist)
    ensures RoundInv(t.store.current, t.store.rounds, t.tally, t.seals, t.dropped)
    ensures BlockInv(t.store, t.tally, t.seals, t.dropped, t.found)
    ensures WriterInv(cfg, t) && CountedInv(t.hist, t.tally)
    ensures LedgerInv(cfg, t.store, t.awards, t.credits)
    ensures CreditInv(t.store.cursor, t.hist, t.credits)
  {
    hide LogInv, RoundInv, CreditInv, IntentInv, PayerInv, WalletInv, SolvedBy, AwardsOk, AwardSum, CreditSum;
  }

  // ------------------------------------------------------------------
  // Sending, and what the wallet and the operator do
  // ------------------------------------------------------------------

  /** Steps that change at most the intent, the payer and the network. */
  ghost predicate Exchange(step: Step) {
    match step
    case Send => true
    case Receive => true
    case Stamp => true
    case Clear => true
    case Abort => true
    case WalletRefuse(_) => true
    case LoseReply => true
    case OperatorClear => true
    case _ => false
  }

  lemma ExchangePayer(cfg: Config, s: Sys, step: Step)
    requires cfg.magnitude > 0.0
    requires Exchange(step) && IntentInv(cfg, s) && PayerInv(cfg, s) && Enabled(cfg, s, step)
    requires s.sent ==> s.store.intent.Intent?
    ensures IntentInv(cfg, Do(cfg, s, step)) && PayerInv(cfg, Do(cfg, s, step))
    ensures
      var t := Do(cfg, s, step);
      && t == s.(store := s.store.(intent := t.store.intent), payer := t.payer, net := t.net)
      && (s.sent ==> t.store.intent.Intent? && t.store.intent.update == s.store.intent.update)
  {
    hide PlanOk, UpdateOk, ScanOk, RangeOk, NoDuplicates;
    hide Commit, Committed, WriterExec, Classified, Finished, OrphanUpdate, PpsRewards, MakeUpdate, Listing, Withhold;
    hide Totals, After, MaxSeq;
    match step
    case Send =>
    case Receive =>
    case Stamp => PlanOkIntent(cfg, s.store, Do(cfg, s, step).store, s.hist, s.plan);
    case Clear =>
    case Abort =>
    case WalletRefuse(_) =>
    case LoseReply =>
    case OperatorClear =>
  }

  lemma ExchangeKeepsInv(cfg: Config, s: Sys, step: Step)
    requires cfg.magnitude > 0.0
    requires Inv(cfg, s) && Exchange(step) && Enabled(cfg, s, step)
    ensures Inv(cfg, Do(cfg, s, step))
  {
    hide LogInv, LedgerInv, CreditInv, RoundInv, BlockInv, CountedInv, WriterInv, IntentInv, PayerInv, WalletInv;
    hide Do, Enabled, Exchange;
    var t := Do(cfg, s, step);
    SentIntent(s);
    ExchangePayer(cfg, s, step);
    StoreButIntent(cfg, s, t);
    WalletKept(s, t);
  }

  lemma SentIntent(s: Sys)
    requires WalletInv(s)
    ensures s.sent ==> s.store.intent.Intent?
  {
    hide WalletSum, ExactlyOnce, Elems;
  }

  lemma AcceptPayer(cfg: Config, s: Sys, id: string)
    requires cfg.magnitude > 0.0
    requires IntentInv(cfg, s) && PayerInv(cfg, s) && Enabled(cfg, s, WalletAccept(id))
    ensures IntentInv(cfg, Do(cfg, s, WalletAccept(id))) && PayerInv(cfg, Do(cfg, s, WalletAccept(id)))
    ensures s.net.Request?
    ensures
      var t := Do(cfg, s, WalletAccept(id));
      var last := Broadcast(s.net.paid, Elems(s.plan.confirmed), s.plan.lo, s.plan.hi);
      && t == s.(net := t.net, sent := true, wallet := s.wallet + [last]) && !s.sent
      && s.store.intent.Intent? && s.store.intent.update.paid == s.net.paid && PlanOk(cfg, s.store, s.hist, s.plan)
  {
    hide PlanOk, UpdateOk, ScanOk, RangeOk, NoDuplicates;
    hide Commit, Committed, WriterExec, Classified, Finished, OrphanUpdate, PpsRewards, MakeUpdate, Listing, Withhold;
    hide Totals, After, MaxSeq, Elems;
  }

  /** The wallet settles blocks that are still pending and shares above the cursor. */
  lemma AcceptWallet(cfg: Config, s: Sys, t: Sys, last: Broadcast)
    requires cfg.magnitude > 0.0 && WalletInv(s) && PlanOk(cfg, s.store, s.hist, s.plan) && !s.sent
    requires s.store.pending !! s.store.confirmed
    requires s.store.intent.Intent? && s.store.intent.update.paid == last.paid
    requires last == Broadcast(last.paid, Elems(s.plan.confirmed), s.plan.lo, s.plan.hi)
    requires t == s.(net := t.net, sent := true, wallet := s.wallet + [last])
    ensures WalletInv(t)
  {
    PlanGrows(cfg, s.store, s.hist, s.plan);
    PlanBlocks(cfg, s.store, s.hist, s.plan);
    hide PlanOk;
    assert t.wallet[..|t.wallet| - 1] == s.wallet;
    assert last.blocks <= s.store.pending;
    assert t.wallet[|s.wallet|] == last;
  }

  lemma AcceptKeepsInv(cfg: Config, s: Sys, id: string)
    requires cfg.magnitude > 0.0
    requires Inv(cfg, s) && Enabled(cfg, s, WalletAccept(id))
    ensures Inv(cfg, Do(cfg, s, WalletAccept(id)))
  {
    hide LogInv, LedgerInv, CreditInv, RoundInv, BlockInv, CountedInv, WriterInv, IntentInv, PayerInv, WalletInv;
    hide Do, Enabled, PlanOk;
    var t := Do(cfg, s, WalletAccept(id));
    StoreButIntent(cfg, s, t) by { AcceptPayer(cfg, s, id); }
    AcceptPayer(cfg, s, id);
    PendingApart(s);
    AcceptWallet(cfg, s, t, Broadcast(s.net.paid, Elems(s.plan.confirmed), s.plan.lo, s.plan.hi));
  }

  lemma PendingApart(s: Sys)
    requires BlockInv(s.store, s.tally, s.seals, s.dropped, s.found)
    ensures s.store.pending !! s.store.confirmed && s.store.orphaned !! s.store.confirmed
  {
    hide SolvedBy, SettledHeight;
  }

  lemma CrashKeepsInv(cfg: Config, s: Sys)
    requires cfg.magnitude > 0.0
    requires Inv(cfg, s) && Enabled(cfg, s, Crash)
    ensures Inv(cfg, Do(cfg, s, Crash))
  {
    hide LogInv, LedgerInv, CreditInv, RoundInv, BlockInv, PlanOk, UpdateOk, ScanOk, RangeOk, ExactlyOnce, WalletSum;
    hide WriterInv;
    assert WriterInv(cfg, Do(cfg, s, Crash)) by { FreeWriterInv(cfg, Do(cfg, s, Crash)); }
  }

  lemma DropKeepsInv(cfg: Config, s: Sys)
    requires cfg.magnitude > 0.0
    requires Inv(cfg, s) && Enabled(cfg, s, WDrop)
    ensures Inv(cfg, Do(cfg, s, WDrop))
  {
    hide LogInv, LedgerInv, CreditInv, RoundInv, BlockInv, WriterInv, PlanOk, UpdateOk, ScanOk, RangeOk;
    hide ExactlyOnce, WalletSum;
    assert WriterInv(cfg, Do(cfg, s, WDrop)) by { FreeWriterInv(cfg, Do(cfg, s, WDrop)); }
  }

  lemma FreeWriterInv(cfg: Config, s: Sys)
    requires s.writer.Free?
    ensures WriterInv(cfg, s)
  {
  }

  // ------------------------------------------------------------------
  // ApplyPayments
  // ------------------------------------------------------------------

  lemma CommitBlocks(st: Store, u: Update)
    requires forall b | b in u.confirmed || b in u.orphaned :: b in st.pending
    requires forall b | b in u.confirmed :: b !in u.orphaned
    ensures
      var st' := Commit(st, u);
      && st'.pending == st.pending - Elems(u.confirmed) - Elems(u.orphaned)
      && st'.confirmed == st.confirmed + Elems(u.confirmed)
      && st'.orphaned == st.orphaned + Elems(u.orphaned)
  {
  }

  lemma CommitLog(cfg: Config, st: Store, hist: seq<Entry>, run: Run, u: Update)
    requires LogInv(cfg, st.log, st.lastSeq, st.cursor, hist)
    requires RangeOk(cfg, st.cursor, hist, run.lo, run.hi, run.work) && u.cursor == run.hi
    ensures Commit(st, u).cursor == run.hi
    ensures LogInv(cfg, Commit(st, u).log, st.lastSeq, Commit(st, u).cursor, hist)
  {
    hide Increasing, AllNonNegative, After;
    AfterAfter(hist, st.cursor, run.hi);
  }

  lemma CommitCredits(cfg: Config, cursor: nat, hist: seq<Entry>, credits: seq<Range>, run: Run)
    requires CreditInv(cursor, hist, credits)
    requires RangeOk(cfg, cursor, hist, run.lo, run.hi, run.work)
    ensures CreditInv(run.hi, hist, credits + [Range(run.lo, run.hi, run.work)])
  {
    hide Between, Totals;
    var n, last := |credits|, Range(run.lo, run.hi, run.work);
    var next := credits + [last];
    assert next[n] == last;
    forall i | 0 <= i < n ensures next[i] == credits[i] && CreditedBefore(next, i) == CreditedBefore(credits, i) {
    }
  }

  /** The heights whose rounds are deleted now, and those deleted before. */
  function Dropped(dropped: map<nat, nat>, heights: seq<nat>, n: nat): map<nat, nat> {
    dropped + map h | h in heights :: n
  }

  lemma CommitRounds(st: Store, u: Update, tally: seq<Entry>, seals: seq<Seal>, dropped: map<nat, nat>)
    requires RoundInv(st.current, st.rounds, tally, seals, dropped)
    ensures RoundInv(st.current, Commit(st, u).rounds, tally, seals, Dropped(dropped, u.deleteRounds, |seals|))
  {
    hide AllNonNegative, SealsOk, RoundShares, Totals, HoldsRound;
    var next, rounds := Dropped(dropped, u.deleteRounds, |seals|), st.rounds - Elems(u.deleteRounds);
    assert Commit(st, u).rounds == rounds by { hide AddPaid, After; }
    forall h, i: nat | HoldsRound(seals, next, h, i) ensures RoundKeyOf(rounds, tally, seals, h, i) {
      DropDeletes(seals, dropped, u.deleteRounds, h, i);
      assert RoundKeyOf(st.rounds, tally, seals, h, i);
    }
    forall h | h in rounds ensures exists i: nat :: HoldsRound(seals, next, h, i) {
      var i: nat :| HoldsRound(seals, dropped, h, i);
      DropDeletes(seals, dropped, u.deleteRounds, h, i);
    }
  }

  /** No round survives its deletion. */
  lemma DropDeletes(seals: seq<Seal>, dropped: map<nat, nat>, heights: seq<nat>, h: nat, i: nat)
    ensures HoldsRound(seals, Dropped(dropped, heights, |seals|), h, i)
            <==> h !in heights && HoldsRound(seals, dropped, h, i)
  {
  }

  lemma CommitSettles(st: Store, u: Update, tally: seq<Entry>, seals: seq<Seal>, dropped: map<nat, nat>,
                      found: set<Block>)
    requires BlockInv(st, tally, seals, dropped, found)
    requires forall b | b in u.confirmed || b in u.orphaned :: b in st.pending
    requires forall b | b in u.confirmed :: b !in u.orphaned
    requires Elems(u.deleteRounds) == HeightSet(u.confirmed) + HeightSet(u.orphaned)
    ensures BlockInv(Commit(st, u), tally, seals, Dropped(dropped, u.deleteRounds, |seals|), found)
  {
    hide SolvedBy, SettledHeight;
    CommitBlocks(st, u);
    CommitKeeps(st, u);
    hide Commit;
    var after := Commit(st, u);
    forall h | h in Dropped(dropped, u.deleteRounds, |seals|) ensures SettledHeight(after, h) {
      if h in u.deleteRounds {
        assert h in HeightSet(u.confirmed) + HeightSet(u.orphaned);
        var b :| (b in u.confirmed || b in u.orphaned) && b.height == h;
        SettledAs(after, b);
      } else {
        SameSettled(st, after, h);
      }
    }
  }

  lemma SettledAs(st: Store, b: Block)
    requires b in st.confirmed + st.orphaned
    ensures SettledHeight(st, b.height)
  {
  }

  lemma CommitAmounts(cfg: Config, st: Store, u: Update, run: Run, m: Miner)
    requires UpdateOk(u, run) && run.balances == st.balances
    ensures Get(Commit(st, u).payouts, m) == Get(st.payouts, m) + Get(u.paid, m)
    ensures Get(Commit(st, u).balances, m) + Get(u.paid, m) == Get(st.balances, m) + Get(run.rewards, m)
  {
  }

  lemma AwardBlocksConcat(a: seq<Award>, b: seq<Award>)
    ensures AwardBlocks(a + b) == AwardBlocks(a) + AwardBlocks(b)
  {
  }

  lemma CommitAwards(cfg: Config, st: Store, u: Update, run: Run, awards: seq<Award>)
    requires AwardsOk(cfg, awards) && forall b | b in AwardBlocks(awards) :: b in st.confirmed
    requires st.pending !! st.confirmed
    requires forall a | a in run.awards :: AwardOk(cfg, a)
    requires NoDuplicates(u.confirmed) && forall b | b in u.confirmed :: b in st.pending
    requires AwardBlocks(run.awards) == u.confirmed || run.awards == []
    ensures AwardsOk(cfg, awards + run.awards)
  {
    hide AwardOk;
    AwardBlocksConcat(awards, run.awards);
    assert AwardBlocks([]) == [];
    var x, y := AwardBlocks(awards), AwardBlocks(run.awards);
    forall i, j | 0 <= i < j < |x + y| ensures (x + y)[i] != (x + y)[j] {
      if i < |x| && |x| <= j {
        assert x[i] in x && y[j - |x|] in y;
      }
    }
  }

  lemma CommitLedger(cfg: Config, s: Sys, u: Update)
    requires cfg.magnitude > 0.0
    requires LedgerInv(cfg, s.store, s.awards, s.credits)
    requires PlanOk(cfg, s.store, s.hist, s.plan) && UpdateOk(u, s.plan)
    requires s.store.pending !! s.store.confirmed
    ensures LedgerInv(cfg, Committed(s, u).store, Committed(s, u).awards, Committed(s, u).credits)
  {
    hide RangeOk, AwardOk, HeightSet, PpsRewards;
    var t, run := Committed(s, u), s.plan;
    CommitBlocks(s.store, u);
    CommitAwards(cfg, s.store, u, run, s.awards);
    AwardBlocksConcat(s.awards, run.awards);
    assert AwardBlocks([]) == [];
    assert t.credits[..|t.credits| - 1] == s.credits;
    forall m: Miner
      ensures Get(t.store.balances, m) + Get(t.store.payouts, m) == AwardSum(t.awards, m) + CreditSum(cfg, t.credits, m)
    {
      CommitAmounts(cfg, s.store, u, run, m);
      AwardSumConcat(s.awards, run.awards, m);
    }
  }

  lemma CommitWallet(cfg: Config, s: Sys, u: Update)
    requires cfg.magnitude > 0.0
    requires WalletInv(s)
    requires PlanOk(cfg, s.store, s.hist, s.plan) && UpdateOk(u, s.plan)
    requires if s.sent then s.store.intent.Intent? && s.store.intent.update == u else u.paid == map[]
    requires Commit(s.store, u).cursor == s.plan.hi
    ensures WalletInv(Committed(s, u))
  {
    UpdateLists(u, s.plan);
    PlanGrows(cfg, s.store, s.hist, s.plan);
    PlanBlocks(cfg, s.store, s.hist, s.plan);
    CommitPayouts(s.store, u);
    CommitBlocks(s.store, u);
    hide UpdateOk, PlanOk, Commit, Elems;
    WalletSettled(s, Committed(s, u), u);
  }

  /** What was in flight is now recorded. */
  lemma WalletSettled(s: Sys, t: Sys, u: Update)
    requires WalletInv(s) && t.wallet == s.wallet && !t.sent
    requires if s.sent then s.store.intent.Intent? && s.store.intent.update == u else u.paid == map[]
    requires forall m: Miner :: Get(t.store.payouts, m) == Get(s.store.payouts, m) + Get(u.paid, m)
    requires t.store.confirmed == s.store.confirmed + Elems(s.plan.confirmed)
    requires s.plan.lo == s.store.cursor <= s.plan.hi == t.store.cursor
    ensures WalletInv(t)
  {
    hide ExactlyOnce, WalletSum, Elems;
    forall i | 0 <= i < Applied(t)
      ensures t.wallet[i].blocks <= t.store.confirmed && t.wallet[i].hi <= t.store.cursor
    {
      if i < Applied(s) {
        assert s.wallet[i].blocks <= s.store.confirmed;
      } else {
        assert s.sent;
      }
    }
  }

  lemma PlanGrows(cfg: Config, st: Store, hist: seq<Entry>, run: Run)
    requires cfg.magnitude > 0.0 && PlanOk(cfg, st, hist, run)
    ensures run.lo == st.cursor <= run.hi
  {
    hide Distinct, HeightSet, AwardSum, AwardOk;
  }

  lemma PlanBlocks(cfg: Config, st: Store, hist: seq<Entry>, run: Run)
    requires cfg.magnitude > 0.0 && PlanOk(cfg, st, hist, run)
    ensures forall b | b in run.confirmed || b in run.orphaned :: b in st.pending
    ensures forall b | b in run.confirmed :: b !in run.orphaned
  {
    hide RunOk, HeightSet;
  }

  lemma CommitPayouts(st: Store, u: Update)
    ensures forall m: Miner :: Get(Commit(st, u).payouts, m) == Get(st.payouts, m) + Get(u.paid, m)
  {
  }

  lemma CommitWriter(cfg: Config, s: Sys, u: Update)
    requires cfg.magnitude > 0.0
    requires WriterInv(cfg, s)
    ensures WriterInv(cfg, Committed(s, u))
  {
    CommitKeeps(s.store, u);
    hide Commit;
  }

  /** What a payer about to call ApplyPayments knows. */
  lemma AboutToApply(cfg: Config, s: Sys)
    requires cfg.magnitude > 0.0
    requires IntentInv(cfg, s) && PayerInv(cfg, s)
    requires s.payer.Resume? || s.payer.Committing?
    ensures PlanOk(cfg, s.store, s.hist, s.plan) && UpdateOk(s.payer.u, s.plan)
    ensures if s.sent then s.store.intent.Intent? && s.store.intent.update == s.payer.u else s.payer.u.paid == map[]
    ensures s.net == Quiet
  {
    hide PlanOk, UpdateOk;
  }

  lemma CommittedInv(cfg: Config, s: Sys)
    requires cfg.magnitude > 0.0
    requires Inv(cfg, s) && (s.payer.Resume? || s.payer.Committing?)
    ensures
      var t := Committed(s, s.payer.u);
      && LogInv(cfg, t.store.log, t.store.lastSeq, t.store.cursor, t.hist)
      && RoundInv(t.store.current, t.store.rounds, t.tally, t.seals, t.dropped)
      && BlockInv(t.store, t.tally, t.seals, t.dropped, t.found)
      && WriterInv(cfg, t) && CountedInv(t.hist, t.tally)
      && LedgerInv(cfg, t.store, t.awards, t.credits)
      && CreditInv(t.store.cursor, t.hist, t.credits)
      && WalletInv(t) && t.net == Quiet
  {
    hide LogInv, LedgerInv, CreditInv, RoundInv, BlockInv, CountedInv, WriterInv, IntentInv, PayerInv, WalletInv;
    hide UpdateOk, PlanOk, RangeOk, Commit;
    var u := s.payer.u;
    AboutToApply(cfg, s);
    PendingApart(s);
    UpdateLists(u, s.plan);
    PlanParts(cfg, s.store, s.hist, s.plan);
    CommitLog(cfg, s.store, s.hist, s.plan, u);
    CommitCredits(cfg, s.store.cursor, s.hist, s.credits, s.plan);
    CommitRounds(s.store, u, s.tally, s.seals, s.dropped);
    CommitSettles(s.store, u, s.tally, s.seals, s.dropped, s.found);
    CommitLedger(cfg, s, u);
    CommitWallet(cfg, s, u);
    CommitWriter(cfg, s, u);
    CommitKeeps(s.store, u);
    assert Committed(s, u).dropped == Dropped(s.dropped, u.deleteRounds, |s.seals|);
  }

  lemma PlanParts(cfg: Config, st: Store, hist: seq<Entry>, run: Run)
    requires cfg.magnitude > 0.0 && PlanOk(cfg, st, hist, run)
    ensures RangeOk(cfg, st.cursor, hist, run.lo, run.hi, run.work)
    ensures forall b | b in run.confirmed || b in run.orphaned :: b in st.pending
    ensures forall b | b in run.confirmed :: b !in run.orphaned
    ensures Elems(run.deleteRounds) == HeightSet(run.confirmed) + HeightSet(run.orphaned)
  {
    hide RangeOk, HeightSet, Elems, AwardSum, AwardOk, PpsRewards;
  }

  lemma UpdateLists(u: Update, run: Run)
    requires UpdateOk(u, run)
    ensures u.confirmed == run.confirmed && u.orphaned == run.orphaned
    ensures u.deleteRounds == run.deleteRounds && u.cursor == run.hi
  {
  }

  lemma CommitKeeps(st: Store, u: Update)
    ensures Commit(st, u).lastSeq == st.lastSeq && Commit(st, u).current == st.current
    ensures Commit(st, u).intent == NoIntent
  {
  }

  lemma ApplyKeepsInv(cfg: Config, s: Sys, step: Step)
    requires cfg.magnitude > 0.0
    requires step.Apply? || step.ResumeApply?
    requires Inv(cfg, s) && Enabled(cfg, s, step)
    ensures Inv(cfg, Do(cfg, s, step))
  {
    hide LogInv, LedgerInv, CreditInv, RoundInv, BlockInv, WriterInv, IntentInv, PayerInv, WalletInv, Commit;
    CommittedInv(cfg, s);
    AppliedPayer(cfg, s, step);
    AppliedWriter(cfg, s, step);
  }

  lemma AppliedPayer(cfg: Config, s: Sys, step: Step)
    requires cfg.magnitude > 0.0
    requires (step.Apply? || step.ResumeApply?) && Enabled(cfg, s, step)
    requires s.net == Quiet && WalletInv(Committed(s, s.payer.u))
    ensures IntentInv(cfg, Do(cfg, s, step)) && PayerInv(cfg, Do(cfg, s, step)) && WalletInv(Do(cfg, s, step))
  {
    CommitKeeps(s.store, s.payer.u);
    hide Commit, ExactlyOnce, WalletSum;
  }

  lemma AppliedWriter(cfg: Config, s: Sys, step: Step)
    requires cfg.magnitude > 0.0
    requires (step.Apply? || step.ResumeApply?) && Enabled(cfg, s, step)
    requires WriterInv(cfg, Committed(s, s.payer.u))
    ensures WriterInv(cfg, Do(cfg, s, step))
  {
    hide Commit;
  }

  // ------------------------------------------------------------------
  // All steps, all runs
  // ------------------------------------------------------------------

  /** Every step, of whichever process, keeps the invariant. */
  lemma StepKeepsInv(cfg: Config, s: Sys, step: Step)
    requires cfg.magnitude > 0.0
    requires Inv(cfg, s) && Enabled(cfg, s, step)
    ensures Inv(cfg, Do(cfg, s, step))
  {
    hide Inv, Do;
    match step
    case WBegin(share, accepted) => BeginKeepsInv(cfg, s, share, accepted);
    case WExec => WriterKeepsInv(cfg, s);
    case WDrop => DropKeepsInv(cfg, s);
    case Reconcile => ReconcileKeepsInv(cfg, s);
    case ResumeApply => ApplyKeepsInv(cfg, s, step);
    case ListPending(list) => ListPendingKeepsInv(cfg, s, list);
    case ReadCursor => ReadKeepsInv(cfg, s, step);
    case ReadShares => ReadKeepsInv(cfg, s, step);
    case SeedBalances => SeedKeepsInv(cfg, s);
    case Classify(o) => ClassifyKeepsInv(cfg, s, o);
    case FinishScan => FinishKeepsInv(cfg, s);
    case Plan(payable) => PlanKeepsInv(cfg, s, payable);
    case WalletAccept(id) => AcceptKeepsInv(cfg, s, id);
    case Apply => ApplyKeepsInv(cfg, s, step);
    case Crash => CrashKeepsInv(cfg, s);
    case _ => ExchangeKeepsInv(cfg, s, step);
  }

  lemma InitInv(cfg: Config)
    requires cfg.magnitude > 0.0
    ensures Inv(cfg, INIT)
  {
    assert LogInv(cfg, [], 0, 0, []) && RoundInv(map[], map[], [], [], map[]) && CreditInv(0, [], []);
    assert BlockInv(EMPTY_STORE, [], [], map[], {}) && CountedInv([], []);
    assert AwardsOk(cfg, []);
    assert LedgerInv(cfg, EMPTY_STORE, [], []);
    hide LogInv, RoundInv, CreditInv, BlockInv, CountedInv, LedgerInv, AwardsOk;
  }

  /** The invariant holds along every run from a state that satisfies it. */
  lemma {:induction false} RunKeepsInv(cfg: Config, s: Sys, steps: seq<Step>)
    requires cfg.magnitude > 0.0
    requires Inv(cfg, s) && CanRun(cfg, s, steps)
    ensures Inv(cfg, RunFrom(cfg, s, steps))
    decreases |steps|
  {
    hide Inv, Do, Enabled;
    if steps != [] {
      StepKeepsInv(cfg, s, steps[0]);
      RunKeepsInv(cfg, Do(cfg, s, steps[0]), steps[1..]);
    }
  }

  lemma ReachableInv(cfg: Config, s: Sys)
    requires cfg.magnitude > 0.0 && Reachable(cfg, s)
    ensures Inv(cfg, s)
  {
    hide Inv, Do, Enabled;
    var steps :| CanRun(cfg, INIT, steps) && RunFrom(cfg, INIT, steps) == s;
    InitInv(cfg);
    RunKeepsInv(cfg, INIT, steps);
  }

  /** The clauses of the invariant, one by one. */
  lemma Clauses(cfg: Config, s: Sys)
    requires cfg.magnitude > 0.0 && Inv(cfg, s)
    ensures LogInv(cfg, s.store.log, s.store.lastSeq, s.store.cursor, s.hist)
    ensures RoundInv(s.store.current, s.store.rounds, s.tally, s.seals, s.dropped)
    ensures CountedInv(s.hist, s.tally) && BlockInv(s.store, s.tally, s.seals, s.dropped, s.found)
    ensures WriterInv(cfg, s) && LedgerInv(cfg, s.store, s.awards, s.credits)
    ensures CreditInv(s.store.cursor, s.hist, s.credits)
    ensures IntentInv(cfg, s) && PayerInv(cfg, s) && WalletInv(s)
  {
    hide LogInv, RoundInv, CountedInv, BlockInv, WriterInv, LedgerInv, CreditInv, IntentInv, PayerInv, WalletInv;
  }
}
