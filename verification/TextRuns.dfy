/** Payout cycles over the text of the keys, for members of every form: which recorded blocks
    leave blocks:pending when they are settled, and what becomes of the others. */
module TextRuns {
  import opened Prelude
  import opened Shares
  import opened Ledger
  import opened Protocol
  import opened BlockText
  import opened Storage
  import opened Payer

  predicate Settles(u: Update, b: Block) {
    b in u.confirmed || b in u.orphaned
  }

  /** Every block of the update was read from a pending member. */
  ghost predicate FromPending(k: Keys, u: Update) {
    forall b | Settles(u, b) :: b in BlocksOf(k.pending)
  }

  /** A commit removes exactly the canonical members whose records it settles. */
  lemma CommitRemoves(k: Keys, u: Update, member: string)
    requires member in k.pending && Parse(member).Some? && FromPending(k, u)
    ensures member !in CommitKeys(k, u).pending <==> Canonical(member) && Settles(u, Parse(member).value)
  {
    hide Parse, Text, Canonical, AddPaid, LogText.AboveScore;
    PrintsBack(member);
    if b :| Settles(u, b) && Text(b) == member {
      var m :| m in k.pending && Parse(m) == Some(b);
      ParsedIsPlain(m);
      WrittenIsCanonical(b);
      RoundTrip(b);
    }
  }

  /** A record as the pool writes it: hashes without colons, numbers that fit. */
  predicate Recorded(pb: Block) {
    ColonFree(pb.hash) && ColonFree(pb.txHash) && Fits(pb)
  }

  /** A settled block leaves pending exactly when its finder's name has no colon. */
  lemma SettledLeaves(k: Keys, u: Update, pb: Block)
    requires Recorded(pb) && Text(pb) in k.pending && FromPending(k, u)
    requires Parse(Text(pb)).Some? && Settles(u, Parse(Text(pb)).value)
    ensures Text(pb) !in CommitKeys(k, u).pending <==> ColonFree(pb.finder)
  {
    hide Text, Canonical, CommitKeys;
    CommitRemoves(k, u, Text(pb));
    RecordedIsCanonical(pb);
  }

  // ------------------------------------------------------------------
  // Histories of the keys
  // ------------------------------------------------------------------

  /** Everything a payout cycle is given: the outside world, the cached address verdicts, and
      the pending members in the order they are read. */
  datatype Turn = Turn(wallet: Wallet, pool: string, valid: map<Miner, bool>, members: seq<string>, list: seq<Block>)

  /** A share is put; a cycle runs to its end, or stops after stamping its intent; a stamped
      intent is committed; the operator removes an intent. */
  datatype Event =
    | Put(share: Share, accepted: bool)
    | Cycle(turn: Turn)
    | Stopped(turn: Turn, txid: string)
    | Resumed
    | Cleared

  ghost function DecisionOf(cfg: Config, codec: LogText.Codec, k: Keys, t: Turn): Decision
    requires cfg.magnitude > 0.0
  {
    RunDecision(cfg, StoreOf(codec, k), t.list, t.wallet, t.pool, t.valid)
  }

  ghost predicate CanHappen(cfg: Config, codec: LogText.Codec, k: Keys, e: Event)
    requires cfg.magnitude > 0.0
  {
    match e
    case Put(share, accepted) => share.hasBlock && accepted ==> share.valid
    case Cycle(t) => k.intent == NoIntent && ReadFrom(k.pending, t.members, t.list)
    case Stopped(t, txid) => k.intent == NoIntent && ReadFrom(k.pending, t.members, t.list)
        && DecisionOf(cfg, codec, k, t).Commits?
    case Resumed => k.intent.Intent? && k.intent.txid != ""
    case Cleared => true
  }

  ghost function Next(cfg: Config, codec: LogText.Codec, k: Keys, e: Event): Keys
    requires cfg.magnitude > 0.0 && CanHappen(cfg, codec, k, e)
  {
    match e
    case Put(share, accepted) => PutKeys(codec, k, share, accepted, cfg.mode == PPS, cfg.cap)
    case Cycle(t) => CarriedKeys(k, DecisionOf(cfg, codec, k, t))
    case Stopped(t, txid) => k.(intent := Intent(DecisionOf(cfg, codec, k, t).update, txid))
    case Resumed => CommitKeys(k, k.intent.update)
    case Cleared => k.(intent := NoIntent)
  }

  /** The update that an event commits. */
  ghost function CommittedBy(cfg: Config, codec: LogText.Codec, k: Keys, e: Event): Option<Update>
    requires cfg.magnitude > 0.0 && CanHappen(cfg, codec, k, e)
  {
    match e
    case Cycle(t) => if DecisionOf(cfg, codec, k, t).Commits? then Some(DecisionOf(cfg, codec, k, t).update) else None
    case Resumed => Some(k.intent.update)
    case _ => None
  }

  /** The event settles the record that is read from a pending member. */
  ghost predicate SettledBy(cfg: Config, codec: LogText.Codec, k: Keys, e: Event, member: string)
    requires cfg.magnitude > 0.0 && CanHappen(cfg, codec, k, e)
  {
    var u := CommittedBy(cfg, codec, k, e);
    member in k.pending && Parse(member).Some? && u.Some? && Settles(u.value, Parse(member).value)
  }

  ghost predicate Occur(cfg: Config, codec: LogText.Codec, k: Keys, events: seq<Event>)
    requires cfg.magnitude > 0.0
    decreases |events|
  {
    events == []
    || (CanHappen(cfg, codec, k, events[0]) && Occur(cfg, codec, Next(cfg, codec, k, events[0]), events[1..]))
  }

  ghost function KeysAfter(cfg: Config, codec: LogText.Codec, k: Keys, events: seq<Event>): Keys
    requires cfg.magnitude > 0.0 && Occur(cfg, codec, k, events)
    decreases |events|
  {
    if events == [] then k else KeysAfter(cfg, codec, Next(cfg, codec, k, events[0]), events[1..])
  }

  /** How often the record of a member is settled. */
  ghost function Times(cfg: Config, codec: LogText.Codec, k: Keys, events: seq<Event>, member: string): nat
    requires cfg.magnitude > 0.0 && Occur(cfg, codec, k, events)
    decreases |events|
  {
    if events == [] then 0
    else
      (if SettledBy(cfg, codec, k, events[0], member) then 1 else 0)
      + Times(cfg, codec, Next(cfg, codec, k, events[0]), events[1..], member)
  }

  /** What an intent would settle was read from pending members, and is still there. */
  ghost predicate IntentRead(k: Keys) {
    k.intent.Intent? ==> FromPending(k, k.intent.update)
  }

  // ------------------------------------------------------------------
  // A cycle settles only what it read
  // ------------------------------------------------------------------

  ghost predicate Within(run: Run, blocks: set<Block>) {
    && (forall b | b in run.confirmed :: b in blocks) && (forall b | b in run.orphaned :: b in blocks)
    && (forall a | a in run.awards :: a.block in blocks)
  }

  lemma {:induction false} ScannedWithin(cfg: Config, st: Store, wallet: Wallet, pool: string, run: Run,
                                         list: seq<Block>, blocks: set<Block>)
    requires cfg.magnitude > 0.0 && Within(run, blocks) && forall b | b in list :: b in blocks
    ensures Within(Scanned(cfg, st, wallet, pool, run, list), blocks)
    decreases |list|
  {
    hide OutcomeOf, ClassOf, Attribute, AddPaid;
    if list != [] {
      var o := OutcomeOf(cfg, ClassOf(wallet.tx(list[0]), wallet.chain(list[0]), pool));
      ScannedWithin(cfg, st, wallet, pool, Classified(cfg, st, run, list[0], o), list[1..], blocks);
    }
  }

  lemma SettledWithin(cfg: Config, run: Run, wallet: Wallet, valid: map<Miner, bool>, blocks: set<Block>)
    requires forall b | b in run.confirmed || b in run.orphaned :: b in blocks
    ensures
      var d := Settled(cfg, run, wallet, valid);
      d.Commits? || d.LeaveIntent? ==> forall b | Settles(d.update, b) :: b in blocks
  {
    hide SettleFrom, PayableIn;
    hide Sent;
  }

  lemma DecisionWithin(cfg: Config, st: Store, list: seq<Block>, wallet: Wallet, pool: string, valid: map<Miner, bool>)
    requires cfg.magnitude > 0.0
    ensures
      var d := RunDecision(cfg, st, list, wallet, pool, valid);
      d.Commits? || d.LeaveIntent? ==> forall b | Settles(d.update, b) :: b in list
  {
    hide Scanned, Settled, PpsRewards, Totals, After;
    var blocks := Elems(list);
    if cfg.mode == PPS {
      var run := Scanned(cfg, st, wallet, pool, PpsRun(cfg, st), list);
      ScannedWithin(cfg, st, wallet, pool, PpsRun(cfg, st), list, blocks);
      SettledWithin(cfg, run, wallet, valid, blocks);
    } else {
      var run := Scanned(cfg, st, wallet, pool, NO_RUN.(balances := st.balances), list);
      ScannedWithin(cfg, st, wallet, pool, NO_RUN.(balances := st.balances), list, blocks);
      SettledWithin(cfg, Finished(run), wallet, valid, blocks);
    }
  }

  lemma ReadsPending(pending: set<string>, members: seq<string>, list: seq<Block>)
    requires ReadFrom(pending, members, list)
    ensures forall b | b in list :: b in BlocksOf(pending)
  {
    hide Parse;
    forall b | b in list ensures b in BlocksOf(pending) {
      var i :| 0 <= i < |list| && list[i] == b;
      assert members[i] in Elems(members);
    }
  }

  lemma TurnFromPending(cfg: Config, codec: LogText.Codec, k: Keys, t: Turn)
    requires cfg.magnitude > 0.0 && ReadFrom(k.pending, t.members, t.list)
    ensures
      var d := DecisionOf(cfg, codec, k, t);
      d.Commits? || d.LeaveIntent? ==> FromPending(k, d.update)
  {
    hide RunDecision, StoreOf, BlocksOf, ReadFrom, Settles;
    DecisionWithin(cfg, StoreOf(codec, k), t.list, t.wallet, t.pool, t.valid);
    ReadsPending(k.pending, t.members, t.list);
  }

  // ------------------------------------------------------------------
  // One event
  // ------------------------------------------------------------------

  /** What an event does to the pending members, the intent and the share counter. */
  lemma EventEffect(cfg: Config, codec: LogText.Codec, k: Keys, e: Event)
    requires cfg.magnitude > 0.0 && CanHappen(cfg, codec, k, e) && IntentRead(k)
    ensures
      var after, u := Next(cfg, codec, k, e), CommittedBy(cfg, codec, k, e);
      && IntentRead(after) && k.lastSeq <= after.lastSeq
      && (u.Some? ==> FromPending(k, u.value) && after.pending == CommitKeys(k, u.value).pending)
      && (u.None? ==> k.pending <= after.pending
                      && forall m | m in after.pending && m !in k.pending :: NewText(m, k.lastSeq))
  {
    hide RunDecision, StoreOf, BlocksOf, ReadFrom, CountKeys, AddPaid, LogText.AboveScore, Texts, Settles, Text;
    match e
    case Put(share, accepted) =>
      PutEffect(codec, k, share, accepted, cfg.mode == PPS, cfg.cap);
      MorePending(k, Next(cfg, codec, k, e));
    case Cycle(t) => TurnFromPending(cfg, codec, k, t);
    case Stopped(t, _) => TurnFromPending(cfg, codec, k, t);
    case Resumed =>
    case Cleared =>
  }

  /** The text of a block whose share was numbered after n. */
  ghost predicate NewText(member: string, n: nat) {
    exists b: Block :: b.mark > n && Text(b) == member
  }

  lemma PutEffect(codec: LogText.Codec, k: Keys, share: Share, accepted: bool, pps: bool, cap: nat)
    requires share.hasBlock && accepted ==> share.valid
    ensures
      var after := PutKeys(codec, k, share, accepted, pps, cap);
      && k.lastSeq <= after.lastSeq && k.pending <= after.pending && after.intent == k.intent
      && forall m | m in after.pending && m !in k.pending :: NewText(m, k.lastSeq)
  {
    hide LogText.ZAddMember, LogText.KeepNewestMembers, LogText.MemberOf, Credit, Text;
    var after := PutKeys(codec, k, share, accepted, pps, cap);
    forall m | m in after.pending && m !in k.pending ensures NewText(m, k.lastSeq) {
      assert FoundBlock(share, k.lastSeq + 1).mark > k.lastSeq;
    }
  }

  lemma MorePending(k: Keys, after: Keys)
    requires IntentRead(k) && k.pending <= after.pending && after.intent == k.intent
    ensures IntentRead(after)
  {
    hide Parse, Settles;
    assert BlocksOf(k.pending) <= BlocksOf(after.pending);
  }

  /** A numbered record that is not pending never comes back. */
  lemma StaysOut(cfg: Config, codec: LogText.Codec, k: Keys, e: Event, pb: Block)
    requires cfg.magnitude > 0.0 && CanHappen(cfg, codec, k, e) && IntentRead(k)
    requires pb.mark <= k.lastSeq && Text(pb) !in k.pending
    ensures Text(pb) !in Next(cfg, codec, k, e).pending
  {
    hide Next, CommittedBy, CanHappen, FromPending, Text, Texts, AddPaid, LogText.AboveScore;
    EventEffect(cfg, codec, k, e);
    if Text(pb) in Next(cfg, codec, k, e).pending {
      assert NewText(Text(pb), k.lastSeq);
      var b: Block :| b.mark > k.lastSeq && Text(b) == Text(pb);
      TextFixesMark(b, pb);
    }
  }

  // ------------------------------------------------------------------
  // Whole histories
  // ------------------------------------------------------------------

  lemma {:induction false} NeverAgain(cfg: Config, codec: LogText.Codec, k: Keys, events: seq<Event>, pb: Block)
    requires cfg.magnitude > 0.0 && Occur(cfg, codec, k, events) && IntentRead(k)
    requires pb.mark <= k.lastSeq && Text(pb) !in k.pending
    ensures Times(cfg, codec, k, events, Text(pb)) == 0
    ensures Text(pb) !in KeysAfter(cfg, codec, k, events).pending
    decreases |events|
  {
    hide Next, CommittedBy, CanHappen, FromPending, Text;
    if events != [] {
      EventEffect(cfg, codec, k, events[0]);
      StaysOut(cfg, codec, k, events[0], pb);
      NeverAgain(cfg, codec, Next(cfg, codec, k, events[0]), events[1..], pb);
    }
  }

  /** Of a finder without a colon a pending block is settled at most once, and is gone then;
      of one with a colon it stays pending whatever happens. */
  lemma {:induction false} SettledOnceOrStays(cfg: Config, codec: LogText.Codec, k: Keys, events: seq<Event>, pb: Block)
    requires cfg.magnitude > 0.0 && Occur(cfg, codec, k, events) && IntentRead(k)
    requires Recorded(pb) && pb.mark <= k.lastSeq && Text(pb) in k.pending
    ensures ColonFree(pb.finder) ==>
              && Times(cfg, codec, k, events, Text(pb)) <= 1
              && (Text(pb) !in KeysAfter(cfg, codec, k, events).pending <==>
                    Times(cfg, codec, k, events, Text(pb)) == 1)
    ensures !ColonFree(pb.finder) ==> Text(pb) in KeysAfter(cfg, codec, k, events).pending
    decreases |events|
  {
    hide Next, CommittedBy, CanHappen, FromPending, Text, Parse, Canonical, CommitKeys;
    if events != [] {
      EventLeaves(cfg, codec, k, events[0], pb);
      EventEffect(cfg, codec, k, events[0]);
      var after := Next(cfg, codec, k, events[0]);
      if Text(pb) in after.pending {
        SettledOnceOrStays(cfg, codec, after, events[1..], pb);
      } else {
        NeverAgain(cfg, codec, after, events[1..], pb);
      }
    }
  }

  /** A pending block leaves with an event exactly when the event settles it and its finder's
      name has no colon. */
  lemma EventLeaves(cfg: Config, codec: LogText.Codec, k: Keys, e: Event, pb: Block)
    requires cfg.magnitude > 0.0 && CanHappen(cfg, codec, k, e) && IntentRead(k)
    requires Recorded(pb) && Text(pb) in k.pending
    ensures Text(pb) !in Next(cfg, codec, k, e).pending
            <==> SettledBy(cfg, codec, k, e, Text(pb)) && ColonFree(pb.finder)
  {
    hide Next, CommittedBy, CanHappen, FromPending, Text, Parse, Canonical, CommitKeys, Settles;
    EventEffect(cfg, codec, k, e);
    var u := CommittedBy(cfg, codec, k, e);
    RecordedIsCanonical(pb);
    PrintsBack(Text(pb));
    if u.Some? {
      if Parse(Text(pb)).Some? {
        CommitRemoves(k, u.value, Text(pb));
      } else {
        UnreadStays(k, u.value, Text(pb));
      }
    }
  }

  lemma UnreadStays(k: Keys, u: Update, member: string)
    requires member in k.pending && FromPending(k, u) && Parse(member).None?
    ensures member in CommitKeys(k, u).pending
  {
    hide Parse, Text, AddPaid, LogText.AboveScore;
    if b :| Settles(u, b) && Text(b) == member {
      var m :| m in k.pending && Parse(m) == Some(b);
      ParsedIsPlain(m);
      RoundTrip(b);
    }
  }

  // ------------------------------------------------------------------
  // Settled again and again
  // ------------------------------------------------------------------

  /** A node that has lost one block, and a wallet that pays nobody. */
  function Losing(b: Block): Wallet {
    Wallet((x: Block) => if x == b then TxError(-5) else NoTxReply, (x: Block) => BlockError,
           (m: Miner) => false, (k: nat) => None)
  }

  lemma {:induction false} ScanLoses(cfg: Config, st: Store, b: Block, pool: string, run: Run, list: seq<Block>)
    requires cfg.magnitude > 0.0 && run.awards == []
    ensures
      var after := Scanned(cfg, st, Losing(b), pool, run, list);
      after.awards == [] && (b in run.orphaned || b in list ==> b in after.orphaned)
    decreases |list|
  {
    if list != [] {
      var w := Losing(b);
      var o := OutcomeOf(cfg, ClassOf(w.tx(list[0]), w.chain(list[0]), pool));
      assert o == if list[0] == b then Lost else Retry;
      ScanLoses(cfg, st, b, pool, Classified(cfg, st, run, list[0], o), list[1..]);
    }
  }

  /** With a wallet that pays nobody the first attempt has nothing to send. */
  lemma NobodyPaid(cfg: Config, run: Run, wallet: Wallet)
    requires forall m :: !wallet.payable(m)
    ensures Settled(cfg, run, wallet, map[]) == Commits(MakeUpdate(cfg, run, 0, {}))
  {
    assert PayableIn(map[], wallet, run) == {};
    assert forall m :: Sent(cfg, run, 0, {}, m) == 0;
    assert MakeUpdate(cfg, run, 0, {}).paid == map[];
  }

  lemma LosingPaysNobody(b: Block)
    ensures forall m :: !Losing(b).payable(m)
  {
  }

  lemma LosingSettles(cfg: Config, st: Store, list: seq<Block>, b: Block)
    requires cfg.magnitude > 0.0 && b in list
    ensures
      var d := RunDecision(cfg, st, list, Losing(b), "", map[]);
      d.Commits? && Settles(d.update, b)
  {
    hide Scanned, Settled, PpsRewards, Totals, After, Losing, Sent;
    if cfg.mode == PPS {
      ScanLoses(cfg, st, b, "", PpsRun(cfg, st), list);
      LosingPaysNobody(b);
      NobodyPaid(cfg, Scanned(cfg, st, Losing(b), "", PpsRun(cfg, st), list), Losing(b));
    } else {
      ScanLoses(cfg, st, b, "", NO_RUN.(balances := st.balances), list);
    }
  }

  /** The pending members can be read in some order. */
  lemma Enumerate(pending: set<string>) returns (members: seq<string>, list: seq<Block>)
    requires Readable(pending)
    ensures ReadFrom(pending, members, list)
  {
    hide Parse;
    members, list := [], [];
    var todo := pending;
    while todo != {}
      invariant todo <= pending && Elems(members) == pending - todo && |members| + |todo| == |pending|
      invariant |list| == |members|
      invariant forall i | 0 <= i < |list| :: Parse(members[i]) == Some(list[i])
      decreases |todo|
    {
      var m :| m in todo;
      ElemsSnoc(members, m);
      members, list := members + [m], list + [Parse(m).value];
      todo := todo - {m};
    }
  }

  /** One cycle that settles the record of a member. */
  lemma SettlingCycle(cfg: Config, codec: LogText.Codec, k: Keys, member: string) returns (e: Event)
    requires cfg.magnitude > 0.0 && k.intent == NoIntent && Readable(k.pending) && member in k.pending
    ensures CanHappen(cfg, codec, k, e) && SettledBy(cfg, codec, k, e, member)
    ensures
      var after := Next(cfg, codec, k, e);
      after.intent == NoIntent && after.pending <= k.pending && after.lastSeq == k.lastSeq
  {
    hide Parse, RunDecision, StoreOf, Settles, Text, AddPaid, LogText.AboveScore;
    var b := Parse(member).value;
    var members, list := Enumerate(k.pending);
    assert b in list by {
      assert member in Elems(members);
      var i :| 0 <= i < |members| && members[i] == member;
      assert list[i] == b;
    }
    LosingSettles(cfg, StoreOf(codec, k), list, b);
    e := Cycle(Turn(Losing(b), "", map[], members, list));
  }

  /** A recorded block that is pending can be settled at most once, in every history from
      here, exactly when its finder's name has no colon. */
  lemma SettledAtMostOnce(cfg: Config, codec: LogText.Codec, k: Keys, pb: Block)
    requires cfg.magnitude > 0.0 && k.intent == NoIntent && Readable(k.pending)
    requires Recorded(pb) && pb.mark <= k.lastSeq && Text(pb) in k.pending
    ensures
      (forall events | Occur(cfg, codec, k, events) :: Times(cfg, codec, k, events, Text(pb)) <= 1)
      <==> ColonFree(pb.finder)
  {
    hide Next, CanHappen, Text, Occur, Times, Parse;
    if ColonFree(pb.finder) {
      forall events | Occur(cfg, codec, k, events) ensures Times(cfg, codec, k, events, Text(pb)) <= 1 {
        SettledOnceOrStays(cfg, codec, k, events, pb);
      }
    } else {
      var e := SettlingCycle(cfg, codec, k, Text(pb));
      EventLeaves(cfg, codec, k, e, pb);
      var e' := SettlingCycle(cfg, codec, Next(cfg, codec, k, e), Text(pb));
      TwoSettlements(cfg, codec, k, e, e', Text(pb));
      assert Occur(cfg, codec, k, [e, e']);
    }
  }

  lemma TwoSettlements(cfg: Config, codec: LogText.Codec, k: Keys, e: Event, e': Event, member: string)
    requires cfg.magnitude > 0.0 && CanHappen(cfg, codec, k, e) && CanHappen(cfg, codec, Next(cfg, codec, k, e), e')
    requires SettledBy(cfg, codec, k, e, member) && SettledBy(cfg, codec, Next(cfg, codec, k, e), e', member)
    ensures Occur(cfg, codec, k, [e, e']) && Times(cfg, codec, k, [e, e'], member) == 2
  {
    hide Next, CanHappen, SettledBy;
    var after := Next(cfg, codec, k, e);
    assert [e, e'][1..] == [e'] && [e'][1..] == [];
    assert Occur(cfg, codec, after, [e']);
    assert Times(cfg, codec, after, [e'], member) == 1;
  }

  // ------------------------------------------------------------------
  // Paid again and again
  // ------------------------------------------------------------------

  /** The wallet confirms b's coinbase and sends what it is asked to. */
  ghost predicate PaysOut(cfg: Config, wallet: Wallet, pool: string, valid: map<Miner, bool>, b: Block, reward: nat)
    requires cfg.magnitude > 0.0
  {
    && OutcomeOf(cfg, ClassOf(wallet.tx(b), wallet.chain(b), pool)) == Mature(reward)
    && CanPay(valid, wallet, b.finder) && wallet.sendmany(0).Some? && wallet.sendmany(0).value.Txid?
  }

  /** The only pending member reads as b, and nothing is owed from before. */
  ghost predicate OnlyPending(k: Keys, member: string, b: Block) {
    && k.pending == {member} && Parse(member) == Some(b) && k.intent == NoIntent
    && k.balances.Keys <= {b.finder} && Get(k.balances, b.finder) == 0
  }

  lemma SoloDecision(cfg: Config, st: Store, wallet: Wallet, pool: string, valid: map<Miner, bool>, b: Block,
                     reward: nat)
    requires cfg.magnitude > 0.0 && cfg.mode == Solo && b.finder != "" && reward > 0 && reward >= cfg.minPayment
    requires PaysOut(cfg, wallet, pool, valid, b, reward)
    requires st.balances.Keys <= {b.finder} && Get(st.balances, b.finder) == 0
    ensures
      RunDecision(cfg, st, [b], wallet, pool, valid)
      == Commits(Update(map[b.finder := 0], map[b.finder := reward], [b], [], [b.height], 0))
  {
    hide OutcomeOf, ClassOf, AddPaid;
    var run0 := NO_RUN.(balances := st.balances);
    var dist := map[b.finder := reward];
    assert b.finder in dist;
    AddPaidNothing(dist);
    var run := run0.(rewards := dist, awards := [Award(b, reward, dist, st.log)]);
    assert Scanned(cfg, st, wallet, pool, run0, [b]) == run by {
      assert Classified(cfg, st, run0, b, Mature(reward)).awards == [Award(b, reward, dist, st.log)];
      assert [b][1..] == [];
    }
    SoloSettled(cfg, run, wallet, valid, b, reward);
  }

  lemma SoloSettled(cfg: Config, run: Run, wallet: Wallet, valid: map<Miner, bool>, b: Block, reward: nat)
    requires cfg.magnitude > 0.0 && reward > 0 && reward >= cfg.minPayment
    requires CanPay(valid, wallet, b.finder) && wallet.sendmany(0).Some? && wallet.sendmany(0).value.Txid?
    requires run.balances.Keys <= {b.finder} && Get(run.balances, b.finder) == 0
    requires run == NO_RUN.(balances := run.balances, rewards := run.rewards, awards := run.awards)
    requires run.rewards == map[b.finder := reward] && AwardBlocks(run.awards) == [b]
    ensures
      Settled(cfg, Finished(run), wallet, valid)
      == Commits(Update(map[b.finder := 0], map[b.finder := reward], [b], [], [b.height], 0))
  {
    hide PaysOut;
    var last := Finished(run);
    assert last.balances == run.balances && last.rewards == run.rewards && last.confirmed == [b]
        && last.deleteRounds == [b.height] by {
      assert Heights([b]) == [b.height];
    }
    WholeReward(cfg, last, b.finder, reward);
    hide MakeUpdate, Finished;
    assert PayableIn(valid, wallet, last) == {b.finder};
  }

  /** One cycle in solo mode pays the finder that was read, and takes the member out of
      pending only if it is the text that the record prints to. */
  lemma SoloCycle(cfg: Config, codec: LogText.Codec, k: Keys, after: Keys, wallet: Wallet, pool: string,
                  valid: map<Miner, bool>, member: string, b: Block, reward: nat)
    requires cfg.magnitude > 0.0 && cfg.mode == Solo && b.finder != "" && reward > 0 && reward >= cfg.minPayment
    requires PaysOut(cfg, wallet, pool, valid, b, reward) && OnlyPending(k, member, b)
    requires Processed(cfg, codec, k, after, wallet, pool, valid)
    ensures after.payouts == AddPaid(k.payouts, map[b.finder := reward])
    ensures after.balances == k.balances + map[b.finder := 0]
    ensures after.intent == NoIntent && after.confirmed == k.confirmed + k.pending * {Text(b)}
    ensures after.pending == k.pending - {Text(b)} && after.orphaned == k.orphaned
  {
    hide RunDecision, Parse, Text, AddPaid, LogText.Entries, LogText.AboveScore, BlocksOf;
    var members, list :| ReadFrom(k.pending, members, list)
      && after == CarriedKeys(k, RunDecision(cfg, StoreOf(codec, k), list, wallet, pool, valid));
    assert members[0] in Elems(members);
    assert list == [b];
    SoloDecision(cfg, StoreOf(codec, k), wallet, pool, valid, b, reward);
    var u := Update(map[b.finder := 0], map[b.finder := reward], [b], [], [b.height], 0);
    assert Texts(u.confirmed) == {Text(b)};
  }

  /** The only pending member is the text of pb, and `first` is owed nothing from before. */
  ghost predicate Waiting(k: Keys, pb: Block, first: string) {
    k.pending == {Text(pb)} && k.intent == NoIntent && k.balances.Keys <= {first} && Get(k.balances, first) == 0
  }

  lemma ColonCycle(cfg: Config, codec: LogText.Codec, k: Keys, after: Keys, wallet: Wallet, pool: string,
                   valid: map<Miner, bool>, pb: Block, first: string, rest: string, reward: nat)
    requires cfg.magnitude > 0.0 && cfg.mode == Solo && reward > 0 && reward >= cfg.minPayment
    requires Recorded(pb) && first != "" && ColonFree(first) && pb.finder == first + ":" + rest
    requires Parse(Text(pb)).Some? ==> PaysOut(cfg, wallet, pool, valid, Parse(Text(pb)).value, reward)
    requires Waiting(k, pb, first) && Processed(cfg, codec, k, after, wallet, pool, valid)
    ensures Waiting(after, pb, first) && after.confirmed == k.confirmed
    ensures Get(after.payouts, first) == Get(k.payouts, first) + reward
  {
    hide Parse, Text, Processed, Canonical, PaysOut;
    ColonFinderReads(pb, first, rest);
    var b := Parse(Text(pb)).value;
    SoloCycle(cfg, codec, k, after, wallet, pool, valid, Text(pb), b, reward);
    PrintsBack(Text(pb));
    RecordedIsCanonical(pb);
    assert pb.finder[|first|] == ':';
    PaidAgain(k.payouts, first, reward);
  }

  /** A block of a finder with a colon is paid in every cycle, to whoever the part before the
      colon names, and stays pending. */
  lemma {:induction false} PaidEveryCycle(cfg: Config, codec: LogText.Codec, ks: seq<Keys>, wallet: Wallet,
                                          pool: string,
                                          valid: map<Miner, bool>, pb: Block, first: string, rest: string, reward: nat)
    requires cfg.magnitude > 0.0 && cfg.mode == Solo && reward > 0 && reward >= cfg.minPayment
    requires Recorded(pb) && first != "" && ColonFree(first) && pb.finder == first + ":" + rest
    requires Parse(Text(pb)).Some? ==> PaysOut(cfg, wallet, pool, valid, Parse(Text(pb)).value, reward)
    requires ks != [] && Waiting(ks[0], pb, first)
    requires forall i | 0 < i < |ks| :: Processed(cfg, codec, ks[i - 1], ks[i], wallet, pool, valid)
    ensures
      var last := ks[|ks| - 1];
      && Waiting(last, pb, first) && last.confirmed == ks[0].confirmed
      && Get(last.payouts, first) == Get(ks[0].payouts, first) + (|ks| - 1) * reward
    decreases |ks|
  {
    hide Parse, Text, Processed, PaysOut, Waiting;
    if |ks| > 1 {
      var n := |ks| - 1;
      PaidEveryCycle(cfg, codec, ks[..n], wallet, pool, valid, pb, first, rest, reward);
      ColonCycle(cfg, codec, ks[n - 1], ks[n], wallet, pool, valid, pb, first, rest, reward);
      assert n * reward == (n - 1) * reward + reward;
    }
  }

  lemma PaidAgain(payouts: map<Miner, nat>, m: Miner, reward: nat)
    ensures Get(AddPaid(payouts, map[m := reward]), m) == Get(payouts, m) + reward
  {
  }

  const COLON_BLOCK := Block("h", "t", 5, "a:b", 1)

  /** The miner "a:b" finds a block. Two cycles both pay its reward to "a", and the block is
      still pending. */
  lemma PaidTwice(cfg: Config, codec: LogText.Codec, k: Keys, once: Keys, twice: Keys, wallet: Wallet, pool: string,
                  reward: nat)
    requires cfg.magnitude > 0.0 && cfg.mode == Solo && reward > 0 && reward >= cfg.minPayment
    requires k.pending == {Text(COLON_BLOCK)} && k.confirmed == {} && k.balances == map[] && k.payouts == map[]
    requires k.intent == NoIntent
    requires PaysOut(cfg, wallet, pool, map[], Block("h", "t", 5, "a", 0), reward)
    requires Processed(cfg, codec, k, once, wallet, pool, map[])
    requires Processed(cfg, codec, once, twice, wallet, pool, map[])
    ensures Text(COLON_BLOCK) == "h:t:5:a:b:1"
    ensures Get(once.payouts, "a") == reward && Get(twice.payouts, "a") == 2 * reward
    ensures twice.pending == {Text(COLON_BLOCK)} && twice.confirmed == {}
  {
    hide Processed, PaysOut, Text, Parse, ColonFree;
    ColonText();
    ColonCycle(cfg, codec, k, once, wallet, pool, map[], COLON_BLOCK, "a", "b", reward);
    ColonCycle(cfg, codec, once, twice, wallet, pool, map[], COLON_BLOCK, "a", "b", reward);
  }

  lemma ColonText()
    ensures
      && Recorded(COLON_BLOCK) && COLON_BLOCK.finder == "a" + ":" + "b" && ColonFree("a")
      && Text(COLON_BLOCK) == "h:t:5:a:b:1" && Parse(Text(COLON_BLOCK)) == Some(Block("h", "t", 5, "a", 0))
  {
    hide Text, Parse;
    ColonTextIs();
    ColonTextReads();
  }

  lemma ColonTextIs()
    ensures Text(COLON_BLOCK) == "h:t:5:a:b:1"
  {
    TextIs(COLON_BLOCK);
    SmallNumbers();
    hide Text, FormatUint, FormatInt;
    assert "5" + ":" + ("a:b" + ":" + "1") == "5:a:b:1";
    assert "h" + ":" + ("t" + ":" + "5:a:b:1") == "h:t:5:a:b:1";
  }

  lemma ColonTextReads()
    ensures Parse(Text(COLON_BLOCK)) == Some(Block("h", "t", 5, "a", 0))
  {
    SmallNumbers();
    SplitFirst("b", FormatInt(1));
    hide FormatUint, FormatInt, ParseInt, BlockText.Split, Text, Parse;
    assert COLON_BLOCK.finder == "a" + ":" + "b";
    ColonFinderReads(COLON_BLOCK, "a", "b");
  }

  lemma SmallNumbers()
    ensures FormatUint(5) == "5" && FormatInt(1) == "1" && ParseInt("b") == 0
  {
    assert ParseUint("b") == Syntax;
  }
}
