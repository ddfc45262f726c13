/** How often the reward of one recorded block can be divided, by pay mode: the record of a block
    that stays pending is divided again while its mode still finds somebody to pay. */
module Repayments {
  import opened Prelude
  import opened Shares
  import opened Ledger
  import opened Protocol
  import opened BlockText
  import opened Storage
  import opened Payer
  import opened TextRuns

  /** The event commits a division of the reward of the record that a pending member holds. In
      pps mode no block reward is divided. */
  ghost predicate PaidBy(cfg: Config, codec: LogText.Codec, k: Keys, e: Event, member: string)
    requires cfg.magnitude > 0.0 && CanHappen(cfg, codec, k, e)
  {
    var u := CommittedBy(cfg, codec, k, e);
    cfg.mode != PPS && member in k.pending && Parse(member).Some? && u.Some? && Parse(member).value in u.value.confirmed
  }

  /** How often that happens. */
  ghost function PaidTimes(cfg: Config, codec: LogText.Codec, k: Keys, events: seq<Event>, member: string): nat
    requires cfg.magnitude > 0.0 && Occur(cfg, codec, k, events)
    decreases |events|
  {
    if events == [] then 0
    else
      (if PaidBy(cfg, codec, k, events[0], member) then 1 else 0)
      + PaidTimes(cfg, codec, Next(cfg, codec, k, events[0]), events[1..], member)
  }

  predicate ByWindow(cfg: Config) {
    cfg.mode == PPLNS && cfg.window > 0.0
  }

  predicate ByRound(cfg: Config) {
    cfg.mode == Prop || (cfg.mode == PPLNS && cfg.window <= 0.0)
  }

  /** Somebody would get a part of b's reward. */
  ghost predicate CanDivide(cfg: Config, st: Store, b: Block) {
    exists reward: nat :: Attribute(cfg, st, b, reward) != map[]
  }

  // ------------------------------------------------------------------
  // When there is somebody to pay
  // ------------------------------------------------------------------

  /** The log holds work up to a mark. */
  ghost predicate HoldsWork(log: seq<Entry>, mark: int) {
    exists e | e in log :: e.seqNo <= mark && e.diff > 0.0
  }

  lemma {:induction false} SumNotPositive(keys: set<Miner>, shares: map<Miner, real>)
    requires forall m :: GetReal(shares, m) <= 0.0
    ensures SumOverReal(keys, shares) <= 0.0
    decreases |keys|
  {
    if keys != {} {
      var m :| m in keys;
      SumOverRealPick(keys, shares, m);
      SumNotPositive(keys - {m}, shares);
    }
  }

  lemma {:induction false} MinerWorkNotPositive(es: seq<Entry>, m: Miner)
    requires forall e | e in es :: e.diff <= 0.0
    ensures MinerWork(es, m) <= 0.0
  {
    if es != [] {
      assert es[0] in es;
      MinerWorkNotPositive(es[1..], m);
    }
  }

  lemma {:induction false} WorkNotPositive(es: seq<Entry>)
    requires forall e | e in es :: e.diff <= 0.0
    ensures Work(es) <= 0.0
  {
    if es != [] {
      assert es[0] in es;
      WorkNotPositive(es[1..]);
    }
  }

  lemma {:induction false} MinerWorkPositive(es: seq<Entry>, e: Entry)
    requires (forall x | x in es :: x.diff >= 0.0) && e in es && e.diff > 0.0
    ensures MinerWork(es, e.miner) > 0.0
  {
    assert es[0] in es;
    if es[0] == e {
      MinerWorkNonNegative(es[1..], e.miner);
    } else {
      assert es == [es[0]] + es[1..];
      MinerWorkPositive(es[1..], e);
    }
  }

  lemma {:induction false} MinerWorkNonNegative(es: seq<Entry>, m: Miner)
    requires forall x | x in es :: x.diff >= 0.0
    ensures MinerWork(es, m) >= 0.0
  {
    if es != [] {
      assert es[0] in es;
      MinerWorkNonNegative(es[1..], m);
    }
  }

  lemma {:induction false} UpToIn(log: seq<Entry>, mark: int)
    ensures forall e :: e in UpTo(log, mark) <==> e in log && e.seqNo <= mark
  {
    if log != [] {
      UpToIn(log[1..], mark);
      assert log == [log[0]] + log[1..];
    }
  }

  /** Shares without positive work have nothing to divide by. */
  lemma NoWorkNoTotal(es: seq<Entry>)
    requires forall e | e in es :: e.diff <= 0.0
    ensures TotalReal(Totals(es)) <= 0.0
  {
    TotalsAreMinerWork(es);
    forall m ensures GetReal(Totals(es), m) <= 0.0 {
      MinerWorkNotPositive(es, m);
    }
    SumNotPositive(Totals(es).Keys, Totals(es));
  }

  /** One positive share among non-negative ones makes the total positive. */
  lemma WorkMakesTotal(es: seq<Entry>, e: Entry)
    requires (forall x | x in es :: x.diff >= 0.0) && e in es && e.diff > 0.0
    ensures TotalReal(Totals(es)) > 0.0
  {
    var shares := Totals(es);
    TotalsAreMinerWork(es);
    MinerWorkPositive(es, e);
    forall m | m in shares ensures shares[m] >= 0.0 {
      MinerWorkNonNegative(es, m);
      assert GetReal(shares, m) == shares[m];
    }
    hide Totals, MinerWork;
    assert e.miner in shares;
    TotalNonNegative(shares.Keys, shares);
  }

  /** Without work up to the mark the window divides nothing. */
  lemma NoWorkNoWindow(log: seq<Entry>, mark: int, window: real)
    requires !HoldsWork(log, mark)
    ensures TotalReal(WindowShares(log, mark, window)) <= 0.0
  {
    hide Totals, WindowStart;
    UpToIn(log, mark);
    var es := UpTo(log, mark);
    NoWorkNoTotal(es[WindowStart(es, window)..]);
  }

  /** With work up to the mark the window reaches some of it. */
  lemma WorkInWindow(log: seq<Entry>, mark: int, window: real)
    requires HoldsWork(log, mark) && window > 0.0 && forall e | e in log :: e.diff >= 0.0
    ensures TotalReal(WindowShares(log, mark, window)) > 0.0
  {
    hide Totals;
    UpToIn(log, mark);
    var es := UpTo(log, mark);
    var i := WindowStart(es, window);
    WindowFromIsWindow(es, window, |es|);
    hide UpTo, WindowStart;
    var inWindow := es[i..];
    assert exists e :: e in inWindow && e.diff > 0.0 by {
      if i == 0 {
        assert inWindow == es;
        var e :| e in log && e.seqNo <= mark && e.diff > 0.0;
      } else if forall e | e in inWindow :: e.diff <= 0.0 {
        WorkNotPositive(inWindow);
      }
    }
    var e :| e in inWindow && e.diff > 0.0;
    WorkMakesTotal(inWindow, e);
  }

  lemma SplitsIffTotal(reward: nat, shares: map<Miner, real>)
    ensures TotalReal(shares) <= 0.0 ==> SplitByShares(reward, shares) == map[]
    ensures TotalReal(shares) > 0.0 ==> SplitByShares(reward, shares) != map[]
  {
    hide Part;
    if TotalReal(shares) > 0.0 {
      assert shares != map[] by { assert SumOverReal({}, shares) == 0.0; }
      var m :| m in shares;
      assert m in SplitByShares(reward, shares);
    }
  }

  /** Solo pays whoever is named. By window, there is somebody to pay exactly when the log holds
      work up to the mark. By round, nobody is paid without the round. */
  lemma WhoIsPaid(cfg: Config, st: Store, b: Block, reward: nat)
    ensures cfg.mode == Solo ==> (Attribute(cfg, st, b, reward) != map[] <==> b.finder != "")
    ensures ByWindow(cfg) && !HoldsWork(st.log, b.mark) ==> Attribute(cfg, st, b, reward) == map[]
    ensures ByWindow(cfg) && HoldsWork(st.log, b.mark) && (forall e | e in st.log :: e.diff >= 0.0) ==>
              Attribute(cfg, st, b, reward) != map[]
    ensures ByRound(cfg) && b.height !in st.rounds ==> Attribute(cfg, st, b, reward) == map[]
  {
    hide SplitByShares, WindowShares, HoldsWork;
    if cfg.mode == Solo {
      assert b.finder in map[b.finder := reward];
    } else if ByWindow(cfg) {
      SplitsIffTotal(reward, WindowShares(st.log, b.mark, cfg.window));
      if HoldsWork(st.log, b.mark) {
        if forall e | e in st.log :: e.diff >= 0.0 { WorkInWindow(st.log, b.mark, cfg.window); }
      } else {
        NoWorkNoWindow(st.log, b.mark, cfg.window);
      }
    } else {
      SplitsIffTotal(reward, map[]);
      assert TotalReal<Miner>(map[]) == 0.0;
    }
  }

  // ------------------------------------------------------------------
  // What a cycle divides
  // ------------------------------------------------------------------

  /** Outside pps mode: every confirmed block was divided, and its round is deleted. */
  ghost predicate Divided(cfg: Config, st: Store, u: Update) {
    && (forall b | b in u.confirmed :: CanDivide(cfg, st, b))
    && (forall b | b in u.confirmed :: b.height in u.deleteRounds)
    && u.cursor == 0
  }

  ghost predicate RunDivides(cfg: Config, st: Store, run: Run) {
    run.confirmed == [] && run.hi == 0 && forall a | a in run.awards :: CanDivide(cfg, st, a.block)
  }

  lemma {:induction false} ScannedDivides(cfg: Config, st: Store, wallet: Wallet, pool: string, run: Run,
                                          list: seq<Block>)
    requires cfg.magnitude > 0.0 && cfg.mode != PPS && RunDivides(cfg, st, run)
    ensures RunDivides(cfg, st, Scanned(cfg, st, wallet, pool, run, list))
    decreases |list|
  {
    hide OutcomeOf, ClassOf, CanDivide;
    if list != [] {
      var o := OutcomeOf(cfg, ClassOf(wallet.tx(list[0]), wallet.chain(list[0]), pool));
      ClassifiedDivides(cfg, st, run, list[0], o);
      hide Classified;
      ScannedDivides(cfg, st, wallet, pool, Classified(cfg, st, run, list[0], o), list[1..]);
    }
  }

  lemma ClassifiedDivides(cfg: Config, st: Store, run: Run, b: Block, o: Outcome)
    requires cfg.magnitude > 0.0 && cfg.mode != PPS && RunDivides(cfg, st, run)
    ensures RunDivides(cfg, st, Classified(cfg, st, run, b, o))
  {
    hide Attribute, AddPaid;
    if o.Mature? && Attribute(cfg, st, b, o.reward) != map[] {
      assert CanDivide(cfg, st, b);
    }
  }

  lemma AwardedBlocks(cfg: Config, st: Store, run: Run)
    requires RunDivides(cfg, st, run)
    ensures
      var last := Finished(run);
      && (forall b | b in last.confirmed :: CanDivide(cfg, st, b) && b.height in last.deleteRounds)
      && (forall a | a in run.awards :: a.block in last.confirmed)
  {
    hide CanDivide;
    var blocks := AwardBlocks(run.awards);
    assert Finished(run).confirmed == blocks;
    forall b | b in blocks ensures CanDivide(cfg, st, b) && b.height in Finished(run).deleteRounds {
      var i :| 0 <= i < |blocks| && blocks[i] == b;
      assert run.awards[i] in run.awards;
      assert Heights(blocks)[i] == b.height;
    }
    forall a | a in run.awards ensures a.block in blocks {
      var i :| 0 <= i < |run.awards| && run.awards[i] == a;
      assert blocks[i] == a.block;
    }
  }

  /** What a cycle commits or leaves as its intent. */
  lemma DecisionDivides(cfg: Config, st: Store, list: seq<Block>, wallet: Wallet, pool: string, valid: map<Miner, bool>)
    requires cfg.magnitude > 0.0 && cfg.mode != PPS
    ensures
      var d := RunDecision(cfg, st, list, wallet, pool, valid);
      d.Commits? || d.LeaveIntent? ==> Divided(cfg, st, d.update)
  {
    hide Scanned, Settled, CanDivide, RunDivides, Finished;
    var run0 := NO_RUN.(balances := st.balances);
    var run := Scanned(cfg, st, wallet, pool, run0, list);
    NothingDivided(cfg, st, run0);
    ScannedDivides(cfg, st, wallet, pool, run0, list);
    AwardedBlocks(cfg, st, run);
    NoCursor(cfg, st, run);
    SettledUpdate(cfg, Finished(run), wallet, valid);
  }

  lemma NothingDivided(cfg: Config, st: Store, run: Run)
    requires run == NO_RUN.(balances := run.balances)
    ensures RunDivides(cfg, st, run)
  {
  }

  lemma NoCursor(cfg: Config, st: Store, run: Run)
    requires RunDivides(cfg, st, run)
    ensures run.confirmed == [] && run.hi == 0 && Finished(run).hi == 0
  {
  }

  lemma SettledUpdate(cfg: Config, run: Run, wallet: Wallet, valid: map<Miner, bool>)
    ensures
      var d := Settled(cfg, run, wallet, valid);
      d.Commits? || d.LeaveIntent? ==>
        d.update.confirmed == run.confirmed && d.update.deleteRounds == run.deleteRounds && d.update.cursor == run.hi
  {
    hide SettleFrom, PayableIn, Sent;
  }

  // ------------------------------------------------------------------
  // Histories
  // ------------------------------------------------------------------

  /** What an intent would commit was divided, and b is not among it unless its round is there. */
  ghost predicate IntentDivided(cfg: Config, k: Keys, b: Block) {
    k.intent.Intent? ==>
      && k.intent.update.cursor == 0
      && (b in k.intent.update.confirmed ==> b.height in k.intent.update.deleteRounds)
      && (ByRound(cfg) && b in k.intent.update.confirmed ==> b.height in k.rounds)
  }

  /** Nothing pays b: there is nobody to pay, and no intent would. */
  ghost predicate Unpayable(cfg: Config, codec: LogText.Codec, k: Keys, b: Block) {
    && (k.intent.Intent? ==> k.intent.update.cursor == 0 && b !in k.intent.update.confirmed)
    && match cfg.mode
       case Solo => b.finder == ""
       case PPLNS => if cfg.window > 0.0 then !HoldsWork(LogText.Entries(codec, k.log), b.mark)
           else b.height !in k.rounds
       case _ => b.height !in k.rounds
  }

  /** Events that do not bring new work for b: by round, no block at its height; by window, no
      share that is numbered up to its mark. */
  predicate Unrelated(cfg: Config, lastSeq: nat, b: Block, e: Event) {
    match e
    case Put(share, accepted) =>
      && (ByRound(cfg) ==> !(share.hasBlock && accepted && share.height == b.height))
      && (ByWindow(cfg) ==> b.mark <= lastSeq)
    case _ => true
  }

  ghost predicate AllUnrelated(cfg: Config, lastSeq: nat, b: Block, events: seq<Event>) {
    forall e | e in events :: Unrelated(cfg, lastSeq, b, e)
  }

  lemma UnpayableDivides(cfg: Config, codec: LogText.Codec, k: Keys, b: Block)
    requires cfg.mode != PPS && Unpayable(cfg, codec, k, b)
    ensures !CanDivide(cfg, StoreOf(codec, k), b)
  {
    hide LogText.Entries, BlocksOf, Attribute, HoldsWork;
    forall reward: nat ensures Attribute(cfg, StoreOf(codec, k), b, reward) == map[] {
      WhoIsPaid(cfg, StoreOf(codec, k), b, reward);
    }
  }

  /** A cycle's update, as far as it concerns b. */
  lemma TurnDivides(cfg: Config, codec: LogText.Codec, k: Keys, t: Turn, b: Block)
    requires cfg.magnitude > 0.0 && cfg.mode != PPS
    ensures
      var d := DecisionOf(cfg, codec, k, t);
      d.Commits? || d.LeaveIntent? ==>
        && d.update.cursor == 0
        && (b in d.update.confirmed ==> b.height in d.update.deleteRounds && CanDivide(cfg, StoreOf(codec, k), b))
        && (b in d.update.confirmed && ByRound(cfg) ==> b.height in k.rounds)
  {
    hide RunDecision, CanDivide;
    DecisionDivides(cfg, StoreOf(codec, k), t.list, t.wallet, t.pool, t.valid);
    hide StoreOf;
    if ByRound(cfg) && CanDivide(cfg, StoreOf(codec, k), b) { RoundNeeded(cfg, codec, k, b); }
  }

  lemma RoundNeeded(cfg: Config, codec: LogText.Codec, k: Keys, b: Block)
    requires ByRound(cfg) && CanDivide(cfg, StoreOf(codec, k), b)
    ensures b.height in k.rounds
  {
    hide LogText.Entries, BlocksOf, Attribute;
    var reward: nat :| Attribute(cfg, StoreOf(codec, k), b, reward) != map[];
    WhoIsPaid(cfg, StoreOf(codec, k), b, reward);
  }

  /** The rounds and the log after an unrelated put. */
  lemma PutBringsNoWork(cfg: Config, codec: LogText.Codec, k: Keys, share: Share, accepted: bool, lastSeq: nat,
                        b: Block)
    requires Unrelated(cfg, lastSeq, b, Put(share, accepted)) && lastSeq <= k.lastSeq
    ensures
      var after := PutKeys(codec, k, share, accepted, cfg.mode == PPS, cfg.cap);
      && after.intent == k.intent
      && (ByRound(cfg) ==> (b.height in after.rounds <==> b.height in k.rounds))
      && (ByWindow(cfg) && HoldsWork(LogText.Entries(codec, after.log), b.mark) ==>
           HoldsWork(LogText.Entries(codec, k.log), b.mark))
  {
    hide LogText.Entries, HoldsWork, LogText.ZAddMember, LogText.KeepNewestMembers, LogText.MemberOf, Credit, Text;
    if share.valid && ByWindow(cfg) {
      var m := LogText.MemberOf(codec, EntryOf(share, k.lastSeq + 1));
      LogText.ScoreOf(codec, EntryOf(share, k.lastSeq + 1));
      LaterMember(codec, k.log, m, cfg.cap, b.mark);
    }
  }

  /** A later member brings no work up to an earlier mark, trimming takes only away. */
  lemma LaterMember(codec: LogText.Codec, log: seq<LogText.Member>, m: LogText.Member, cap: nat, mark: int)
    requires m.score > mark
    ensures HoldsWork(LogText.Entries(codec, LogText.KeepNewestMembers(LogText.ZAddMember(log, m), cap)), mark) ==>
              HoldsWork(LogText.Entries(codec, log), mark)
  {
    var longer := LogText.ZAddMember(log, m);
    var kept := LogText.KeepNewestMembers(longer, cap);
    assert forall x | x in kept :: x in longer;
    LogText.SelectedIn(log, m.score);
    assert forall x | x in longer :: x in log || x == m;
    hide LogText.Read, LogText.ZAddMember, LogText.KeepNewestMembers, LogText.Entries;
    if e :| e in LogText.Entries(codec, kept) && e.seqNo <= mark && e.diff > 0.0 {
      var x := EntryFrom(codec, kept, e);
      EntryThere(codec, log, x, e);
    }
  }

  ghost predicate ReadsAs(codec: LogText.Codec, m: LogText.Member, e: Entry) {
    var r := LogText.Read(codec, m.text);
    r.Some? && e == Entry(r.value.miner, r.value.diff, m.score)
  }

  lemma {:induction false} EntryFrom(codec: LogText.Codec, log: seq<LogText.Member>, e: Entry)
    returns (m: LogText.Member)
    requires e in LogText.Entries(codec, log)
    ensures m in log && ReadsAs(codec, m, e)
  {
    hide LogText.Read;
    if e in LogText.Entries(codec, log[1..]) {
      m := EntryFrom(codec, log[1..], e);
    } else {
      m := log[0];
    }
  }

  lemma {:induction false} EntryThere(codec: LogText.Codec, log: seq<LogText.Member>, m: LogText.Member, e: Entry)
    requires m in log && ReadsAs(codec, m, e)
    ensures e in LogText.Entries(codec, log)
  {
    hide LogText.Read;
    if m != log[0] {
      assert log == [log[0]] + log[1..];
      EntryThere(codec, log[1..], m, e);
    }
  }

  /** What cannot be paid stays so, and is not paid. */
  lemma UnpayableStays(cfg: Config, codec: LogText.Codec, k: Keys, e: Event, lastSeq: nat, member: string)
    requires cfg.magnitude > 0.0 && cfg.mode != PPS && CanHappen(cfg, codec, k, e) && Parse(member).Some?
    requires Unpayable(cfg, codec, k, Parse(member).value) && lastSeq <= k.lastSeq
    requires Unrelated(cfg, lastSeq, Parse(member).value, e)
    ensures !PaidBy(cfg, codec, k, e, member)
    ensures Unpayable(cfg, codec, Next(cfg, codec, k, e), Parse(member).value)
  {
    hide RunDecision, StoreOf, ReadFrom, PutKeys, Parse, HoldsWork, LogText.Entries, CanDivide, Texts, AddPaid, Elems;
    var b := Parse(member).value;
    UnpayableDivides(cfg, codec, k, b);
    match e
    case Put(share, accepted) => PutBringsNoWork(cfg, codec, k, share, accepted, lastSeq, b);
    case Cycle(t) => TurnDivides(cfg, codec, k, t, b);
    case Stopped(t, _) => TurnDivides(cfg, codec, k, t, b);
    case Resumed =>
    case Cleared =>
  }

  lemma {:induction false} NeverPaid(cfg: Config, codec: LogText.Codec, k: Keys, events: seq<Event>, lastSeq: nat,
                                     member: string)
    requires cfg.magnitude > 0.0 && cfg.mode != PPS && Occur(cfg, codec, k, events) && Parse(member).Some?
    requires Unpayable(cfg, codec, k, Parse(member).value) && lastSeq <= k.lastSeq && IntentRead(k)
    requires AllUnrelated(cfg, lastSeq, Parse(member).value, events)
    ensures PaidTimes(cfg, codec, k, events, member) == 0
    decreases |events|
  {
    hide Next, CommittedBy, CanHappen, Parse, Unpayable, PaidBy, Unrelated, IntentRead;
    if events != [] {
      EventEffect(cfg, codec, k, events[0]);
      UnpayableStays(cfg, codec, k, events[0], lastSeq, member);
      assert forall e | e in events[1..] :: e in events;
      NeverPaid(cfg, codec, Next(cfg, codec, k, events[0]), events[1..], lastSeq, member);
    }
  }

  /** By round, paying a block deletes its round, and without an event for its height it does
      not come back. */
  lemma RoundGone(cfg: Config, codec: LogText.Codec, k: Keys, e: Event, lastSeq: nat, member: string)
    requires cfg.magnitude > 0.0 && ByRound(cfg) && CanHappen(cfg, codec, k, e) && Parse(member).Some?
    requires IntentDivided(cfg, k, Parse(member).value) && lastSeq <= k.lastSeq
    requires Unrelated(cfg, lastSeq, Parse(member).value, e)
    ensures IntentDivided(cfg, Next(cfg, codec, k, e), Parse(member).value)
    ensures PaidBy(cfg, codec, k, e, member) ==> Unpayable(cfg, codec, Next(cfg, codec, k, e), Parse(member).value)
  {
    hide RunDecision, StoreOf, ReadFrom, PutKeys, Parse, HoldsWork, LogText.Entries, CanDivide, Texts, AddPaid;
    var b := Parse(member).value;
    match e
    case Put(share, accepted) => PutBringsNoWork(cfg, codec, k, share, accepted, lastSeq, b);
    case Cycle(t) => TurnDivides(cfg, codec, k, t, b);
    case Stopped(t, _) => TurnDivides(cfg, codec, k, t, b);
    case Resumed =>
    case Cleared =>
  }

  lemma {:induction false} PaidOnceByRound(cfg: Config, codec: LogText.Codec, k: Keys, events: seq<Event>,
                                           lastSeq: nat, member: string)
    requires cfg.magnitude > 0.0 && ByRound(cfg) && Occur(cfg, codec, k, events) && Parse(member).Some?
    requires IntentDivided(cfg, k, Parse(member).value) && lastSeq <= k.lastSeq && IntentRead(k)
    requires AllUnrelated(cfg, lastSeq, Parse(member).value, events)
    ensures PaidTimes(cfg, codec, k, events, member) <= 1
    decreases |events|
  {
    hide Next, CommittedBy, CanHappen, Parse, Unpayable, PaidBy, Unrelated, IntentDivided, IntentRead;
    if events != [] {
      EventEffect(cfg, codec, k, events[0]);
      RoundGone(cfg, codec, k, events[0], lastSeq, member);
      assert forall e | e in events[1..] :: e in events;
      var after := Next(cfg, codec, k, events[0]);
      if PaidBy(cfg, codec, k, events[0], member) {
        NeverPaid(cfg, codec, after, events[1..], lastSeq, member);
      } else {
        PaidOnceByRound(cfg, codec, after, events[1..], lastSeq, member);
      }
    }
  }

  lemma {:induction false} PaidIsSettled(cfg: Config, codec: LogText.Codec, k: Keys, events: seq<Event>, member: string)
    requires cfg.magnitude > 0.0 && Occur(cfg, codec, k, events)
    ensures PaidTimes(cfg, codec, k, events, member) <= Times(cfg, codec, k, events, member)
    decreases |events|
  {
    hide Next, CommittedBy, CanHappen, Parse;
    if events != [] {
      PaidIsSettled(cfg, codec, Next(cfg, codec, k, events[0]), events[1..], member);
    }
  }

  // ------------------------------------------------------------------
  // Paying again
  // ------------------------------------------------------------------

  /** The node has matured one block; the wallet pays nobody, so that rewards become balances. */
  function Maturing(cfg: Config, b: Block): Wallet {
    var n := if cfg.minConfirmations < 0 then 0 else cfg.minConfirmations;
    Wallet((x: Block) => if x == b then Tx(n, 1.0, []) else NoTxReply, (x: Block) => NoBlockReply,
           (m: Miner) => false, (k: nat) => None)
  }

  lemma MaturingOutcome(cfg: Config, b: Block, x: Block)
    requires cfg.magnitude > 0.0
    ensures
      var o := OutcomeOf(cfg, ClassOf(Maturing(cfg, b).tx(x), Maturing(cfg, b).chain(x), ""));
      if x == b then o.Mature? else o == Retry
  {
  }

  lemma {:induction false} ScanMatures(cfg: Config, st: Store, b: Block, run: Run, list: seq<Block>)
    requires cfg.magnitude > 0.0 && cfg.mode != PPS
    requires forall reward: nat :: Attribute(cfg, st, b, reward) != map[]
    ensures
      var after := Scanned(cfg, st, Maturing(cfg, b), "", run, list);
      (exists a | a in run.awards :: a.block == b) || b in list ==> exists a | a in after.awards :: a.block == b
    decreases |list|
  {
    hide OutcomeOf, ClassOf, Attribute, Maturing;
    if list != [] {
      var w := Maturing(cfg, b);
      var o := OutcomeOf(cfg, ClassOf(w.tx(list[0]), w.chain(list[0]), ""));
      MaturingOutcome(cfg, b, list[0]);
      var next := Classified(cfg, st, run, list[0], o);
      ClassifiedAwards(cfg, st, run, list[0], o);
      hide Classified;
      ScanMatures(cfg, st, b, next, list[1..]);
      assert list == [list[0]] + list[1..];
    }
  }

  lemma ClassifiedAwards(cfg: Config, st: Store, run: Run, b: Block, o: Outcome)
    requires cfg.magnitude > 0.0 && cfg.mode != PPS
    ensures forall a | a in run.awards :: a in Classified(cfg, st, run, b, o).awards
    ensures o.Mature? && Attribute(cfg, st, b, o.reward) != map[] ==>
              exists a | a in Classified(cfg, st, run, b, o).awards :: a.block == b
  {
    hide Attribute, AddPaid;
    if o.Mature? && Attribute(cfg, st, b, o.reward) != map[] {
      var a := Award(b, o.reward, Attribute(cfg, st, b, o.reward), st.log);
      assert a in Classified(cfg, st, run, b, o).awards;
    }
  }

  lemma MaturingPays(cfg: Config, st: Store, list: seq<Block>, b: Block)
    requires cfg.magnitude > 0.0 && cfg.mode != PPS && b in list
    requires forall reward: nat :: Attribute(cfg, st, b, reward) != map[]
    ensures
      var d := RunDecision(cfg, st, list, Maturing(cfg, b), "", map[]);
      d.Commits? && b in d.update.confirmed && d.update.cursor == 0
  {
    hide Scanned, Settled, Maturing, Attribute, CanDivide, RunDivides, Finished;
    var run0 := NO_RUN.(balances := st.balances);
    var run := Scanned(cfg, st, Maturing(cfg, b), "", run0, list);
    ScanMatures(cfg, st, b, run0, list);
    NothingDivided(cfg, st, run0);
    ScannedDivides(cfg, st, Maturing(cfg, b), "", run0, list);
    AwardedBlocks(cfg, st, run);
    NoCursor(cfg, st, run);
    MaturingPaysNobody(cfg, b);
    NobodyPaid(cfg, Finished(run), Maturing(cfg, b));
    SettledUpdate(cfg, Finished(run), Maturing(cfg, b), map[]);
  }

  lemma MaturingPaysNobody(cfg: Config, b: Block)
    ensures forall m :: !Maturing(cfg, b).payable(m)
  {
  }

  /** There is somebody to pay for b whatever its round: in solo mode a name, by window work
      up to the mark. */
  ghost predicate PaysWithoutRound(cfg: Config, st: Store, b: Block) {
    match cfg.mode
    case Solo => b.finder != ""
    case PPLNS => cfg.window > 0.0 && HoldsWork(st.log, b.mark)
    case _ => false
  }

  /** A cycle that pays the record of a member, and leaves the log. */
  lemma PayingCycle(cfg: Config, codec: LogText.Codec, k: Keys, member: string) returns (e: Event)
    requires cfg.magnitude > 0.0 && k.intent == NoIntent && Readable(k.pending) && member in k.pending
    requires PaysWithoutRound(cfg, StoreOf(codec, k), Parse(member).value)
    requires ByWindow(cfg) ==> forall e | e in LogText.Entries(codec, k.log) :: e.diff >= 0.0
    ensures CanHappen(cfg, codec, k, e) && PaidBy(cfg, codec, k, e, member) && e.Cycle?
    ensures
      var after := Next(cfg, codec, k, e);
      after.intent == NoIntent && after.pending <= k.pending && after.lastSeq == k.lastSeq && after.log == k.log
  {
    hide Parse, RunDecision, Text, AddPaid, LogText.AboveScore, Attribute, LogText.Entries, BlocksOf;
    hide HoldsWork, Maturing;
    var b, st := Parse(member).value, StoreOf(codec, k);
    var members, list := Enumerate(k.pending);
    assert b in list by {
      assert member in Elems(members);
      var i :| 0 <= i < |members| && members[i] == member;
      assert list[i] == b;
    }
    forall reward: nat ensures Attribute(cfg, st, b, reward) != map[] {
      WhoIsPaid(cfg, st, b, reward);
    }
    MaturingPays(cfg, st, list, b);
    e := Cycle(Turn(Maturing(cfg, b), "", map[], members, list));
  }

  lemma TwoPayments(cfg: Config, codec: LogText.Codec, k: Keys, e: Event, e': Event, member: string)
    requires cfg.magnitude > 0.0 && CanHappen(cfg, codec, k, e) && CanHappen(cfg, codec, Next(cfg, codec, k, e), e')
    requires PaidBy(cfg, codec, k, e, member) && PaidBy(cfg, codec, Next(cfg, codec, k, e), e', member)
    ensures Occur(cfg, codec, k, [e, e']) && PaidTimes(cfg, codec, k, [e, e'], member) == 2
  {
    hide Next, CanHappen, PaidBy;
    var after := Next(cfg, codec, k, e);
    assert [e, e'][1..] == [e'] && [e'][1..] == [];
    assert Occur(cfg, codec, after, [e']);
    assert PaidTimes(cfg, codec, after, [e'], member) == 1;
  }

  /** What is read of a recorded block. */
  lemma RecordedReads(pb: Block)
    requires Recorded(pb)
    ensures Parse(Text(pb)).Some?
    ensures Parse(Text(pb)).value.finder == LogText.FirstPart(pb.finder) && Parse(Text(pb)).value.height == pb.height
    ensures ColonFree(pb.finder) ==> Parse(Text(pb)).value == pb
  {
    LogText.CutParts(pb.finder);
    hide Text, Parse, LogText.Cut;
    if ColonFree(pb.finder) {
      RoundTrip(pb);
    } else {
      var halves := LogText.Cut(pb.finder).value;
      ColonFinderReads(pb, halves.head, halves.tail);
    }
  }

  /** How often a recorded pending block can be paid, in histories that bring it no new work. At
      most once if its finder's name has no colon. Otherwise it stays pending, and can be paid
      twice exactly if there is somebody to pay without its round: in solo mode if the part
      before the colon is not empty; in pplns mode with a window if the log holds work up to
      the mark that was read; in prop mode and without a window never. */
  lemma PaidAtMostOnce(cfg: Config, codec: LogText.Codec, k: Keys, pb: Block)
    requires cfg.magnitude > 0.0 && cfg.mode != PPS && k.intent == NoIntent && Readable(k.pending)
    requires Recorded(pb) && pb.mark <= k.lastSeq && Text(pb) in k.pending
    requires ByWindow(cfg) ==> forall e | e in LogText.Entries(codec, k.log) :: e.diff >= 0.0
    ensures Parse(Text(pb)).Some? && Parse(Text(pb)).value.finder == LogText.FirstPart(pb.finder)
    ensures
      var b := Parse(Text(pb)).value;
      (forall events | Occur(cfg, codec, k, events) && AllUnrelated(cfg, k.lastSeq, b, events) ::
         PaidTimes(cfg, codec, k, events, Text(pb)) <= 1)
      <==> ColonFree(pb.finder) || !PaysWithoutRound(cfg, StoreOf(codec, k), b)
  {
    hide Text, Parse, Occur, PaidTimes, AllUnrelated, StoreOf, PaysWithoutRound, IntentRead, LogText.FirstPart;
    RecordedReads(pb);
    var b := Parse(Text(pb)).value;
    if ColonFree(pb.finder) || !PaysWithoutRound(cfg, StoreOf(codec, k), b) {
      forall events | Occur(cfg, codec, k, events) && AllUnrelated(cfg, k.lastSeq, b, events)
        ensures PaidTimes(cfg, codec, k, events, Text(pb)) <= 1
      {
        NotPaidTwice(cfg, codec, k, pb, events);
      }
    } else {
      var e, e' := PaysTwice(cfg, codec, k, pb);
      assert Occur(cfg, codec, k, [e, e']) && PaidTimes(cfg, codec, k, [e, e'], Text(pb)) == 2;
      CyclesUnrelated(cfg, k.lastSeq, b, e, e');
    }
  }

  lemma CyclesUnrelated(cfg: Config, lastSeq: nat, b: Block, e: Event, e': Event)
    requires e.Cycle? && e'.Cycle?
    ensures AllUnrelated(cfg, lastSeq, b, [e, e'])
  {
  }

  lemma NotPaidTwice(cfg: Config, codec: LogText.Codec, k: Keys, pb: Block, events: seq<Event>)
    requires cfg.magnitude > 0.0 && cfg.mode != PPS && k.intent == NoIntent && Occur(cfg, codec, k, events)
    requires Recorded(pb) && pb.mark <= k.lastSeq && Text(pb) in k.pending && Parse(Text(pb)).Some?
    requires AllUnrelated(cfg, k.lastSeq, Parse(Text(pb)).value, events)
    requires ColonFree(pb.finder) || !PaysWithoutRound(cfg, StoreOf(codec, k), Parse(Text(pb)).value)
    ensures PaidTimes(cfg, codec, k, events, Text(pb)) <= 1
  {
    hide Text, Parse, Occur, PaidTimes, AllUnrelated, HoldsWork, LogText.Entries, BlocksOf;
    if ColonFree(pb.finder) {
      SettledOnceOrStays(cfg, codec, k, events, pb);
      PaidIsSettled(cfg, codec, k, events, Text(pb));
    } else if ByRound(cfg) {
      PaidOnceByRound(cfg, codec, k, events, k.lastSeq, Text(pb));
    } else {
      NeverPaid(cfg, codec, k, events, k.lastSeq, Text(pb));
    }
  }

  lemma PaysTwice(cfg: Config, codec: LogText.Codec, k: Keys, pb: Block) returns (e: Event, e': Event)
    requires cfg.magnitude > 0.0 && k.intent == NoIntent && Readable(k.pending)
    requires Recorded(pb) && Text(pb) in k.pending && !ColonFree(pb.finder) && Parse(Text(pb)).Some?
    requires PaysWithoutRound(cfg, StoreOf(codec, k), Parse(Text(pb)).value)
    requires ByWindow(cfg) ==> forall e | e in LogText.Entries(codec, k.log) :: e.diff >= 0.0
    ensures e.Cycle? && e'.Cycle?
    ensures Occur(cfg, codec, k, [e, e']) && PaidTimes(cfg, codec, k, [e, e'], Text(pb)) == 2
  {
    hide Text, Parse, Next, CanHappen, PaidBy, SettledBy, LogText.Entries, HoldsWork, BlocksOf;
    e := PayingCycle(cfg, codec, k, Text(pb));
    EventLeaves(cfg, codec, k, e, pb);
    var after := Next(cfg, codec, k, e);
    SameLog(cfg, codec, k, after, Parse(Text(pb)).value);
    e' := PayingCycle(cfg, codec, after, Text(pb));
    TwoPayments(cfg, codec, k, e, e', Text(pb));
  }

  lemma SameLog(cfg: Config, codec: LogText.Codec, k: Keys, after: Keys, b: Block)
    requires PaysWithoutRound(cfg, StoreOf(codec, k), b) && after.log == k.log
    ensures PaysWithoutRound(cfg, StoreOf(codec, after), b)
  {
    hide LogText.Entries, BlocksOf, HoldsWork;
  }
}
