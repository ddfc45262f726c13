/** The payout protocol as a transition system: one FIFO share writer, one periodic
    payer and an external wallet working against the store, with a crash possible
    between any two commands (storage/redis.go, payments/payer.go).

    A step is one Redis command of the writer, one store or wallet call of the payer,
    or one event of the network, the wallet or the operator. */
module Protocol {
  import opened Prelude
  import opened Shares
  import opened Coins
  import opened Ledger

  /** How one confirmed block's reward was divided; log is the share log at that moment. */
  datatype Award = Award(block: Block, reward: nat, dist: map<Miner, nat>, log: seq<Entry>)

  /** The locals of one payout run: workers (balance and reward per miner), the update
      under construction and, for pps, the share range being credited. */
  datatype Run = Run(
    balances: map<Miner, nat>,
    rewards: map<Miner, nat>,
    awards: seq<Award>,
    confirmed: seq<Block>,
    orphaned: seq<Block>,
    deleteRounds: seq<nat>,
    lo: nat,
    hi: nat,
    work: map<Miner, real>)

  datatype Payer =
    | Idle
    | Resume(u: Update)
    | Ready
    | Listed(todo: seq<Block>)
    | CursorRead(lo: nat)
    | SharesRead(lo: nat, work: map<Miner, real>, hi: nat)
    | Seeded(run: Run)
    | Scan(run: Run, todo: seq<Block>)
    | Planning(run: Run, attempt: nat)
    | Persisted(run: Run, u: Update, attempt: nat)
    | Awaiting(run: Run, u: Update, attempt: nat)
    | Stamping(u: Update, txid: string)
    | Clearing
    | Committing(u: Update)

  /** The command putShareNow runs next. */
  datatype Stage = ToLog | ToTrim | ToCount | ToSeal | ToAdd

  datatype Writer = Free | Busy(share: Share, accepted: bool, seqNo: nat, stage: Stage)

  /** sendmany's answer: a txid, -6 (short of funds for fees), or any other error. */
  datatype Reply = Txid(id: string) | Short | Refused

  datatype Net = Quiet | Request(paid: map<Miner, nat>) | Answered(reply: Reply)

  /** One sendmany that reached the chain: amounts, the blocks whose rewards it settles
      and the share range lo < seqNo <= hi it settles. */
  datatype Broadcast = Broadcast(paid: map<Miner, nat>, blocks: set<Block>, lo: nat, hi: nat)

  /** A sealed round: tally[lo..hi] was renamed to round<height>. */
  datatype Seal = Seal(height: nat, lo: nat, hi: nat)

  /** A committed pps range and the per-miner difficulty credited for it. */
  datatype Range = Range(lo: nat, hi: nat, work: map<Miner, real>)

  /** Store, processes and network; the fields from plan on are history that no step reads. */
  datatype Sys = Sys(
    store: Store,
    writer: Writer,
    payer: Payer,
    net: Net,
    plan: Run,               // the run behind the current intent or commit
    sent: bool,              // the current intent has been broadcast
    wallet: seq<Broadcast>,  // everything the wallet ever broadcast
    awards: seq<Award>,      // committed block rewards
    credits: seq<Range>,     // committed pps ranges
    hist: seq<Entry>,        // every share ever logged
    tally: seq<Entry>,       // every share ever counted into a round
    seals: seq<Seal>,        // every round ever sealed
    dropped: map<nat, nat>,  // per height, how many seals there were when its round was last deleted
    found: set<Block>)       // every block ever added to pending

  const NO_RUN := Run(map[], map[], [], [], [], [], 0, 0, map[])

  const INIT := Sys(EMPTY_STORE, Free, Idle, Quiet, NO_RUN, false, [], [], [], [], [], [], map[], {})

  // ------------------------------------------------------------------
  // The share writer
  // ------------------------------------------------------------------

  function FirstStage(): Stage { ToLog }

  /** The stage after the given one, None when the pipeline is done. */
  function NextStage(pps: bool, block: bool, stage: Stage): Option<Stage> {
    match stage
    case ToLog => Some(if pps then ToCount else ToTrim)
    case ToTrim => Some(ToCount)
    case ToCount => if block then Some(ToSeal) else None
    case ToSeal => Some(ToAdd)
    case ToAdd => None
  }

  function EntryOf(share: Share, seqNo: nat): Entry {
    Entry(share.miner, share.diff, seqNo)
  }

  function CmdOf(share: Share, seqNo: nat, stage: Stage): Cmd {
    match stage
    case ToLog => LogShare(EntryOf(share, seqNo))
    case ToTrim => TrimLog
    case ToCount => CountShare(EntryOf(share, seqNo))
    case ToSeal => SealRound(share.height)
    case ToAdd => AddPending(FoundBlock(share, seqNo))
  }

  /** Where the open round starts in the tally. */
  function OpenAt(seals: seq<Seal>): nat {
    if seals == [] then 0 else seals[|seals| - 1].hi
  }

  /** One writer command: its effect on the store and on the history. */
  function WriterExec(cfg: Config, s: Sys): Sys
    requires s.writer.Busy?
  {
    var Busy(share, accepted, seqNo, stage) := s.writer;
    var cmd := CmdOf(share, seqNo, stage);
    var next := NextStage(cfg.mode == PPS, share.hasBlock && accepted, stage);
    var t := s.(
      store := Exec(cmd, s.store, cfg.cap),
      writer := if next.Some? then Busy(share, accepted, seqNo, next.value) else Free);
    match stage
    case ToLog => t.(hist := s.hist + [EntryOf(share, seqNo)])
    case ToTrim => t
    case ToCount => t.(tally := s.tally + [EntryOf(share, seqNo)])
    case ToSeal =>
      if s.store.current == map[] then t
      else t.(seals := s.seals + [Seal(share.height, OpenAt(s.seals), |s.tally|)])
    case ToAdd => t.(found := s.found + {FoundBlock(share, seqNo)})
  }

  // ------------------------------------------------------------------
  // The payer
  // ------------------------------------------------------------------

  function Workers(run: Run): set<Miner> {
    run.balances.Keys + run.rewards.Keys
  }

  function Owed(run: Run, m: Miner): nat {
    Get(run.balances, m) + Get(run.rewards, m)
  }

  /** The settlement's part for one worker never exceeds what is owed. */
  lemma SentAtMostOwed(owed: nat, minPayment: nat, k: nat, payable: bool)
    ensures 0.0 <= Withhold(k)
    ensures SentTo(owed, minPayment, Withhold(k), payable) <= owed
  {
    WithholdNonNegative(k);
    var w := Withhold(k);
    assert owed as real * w >= 0.0;
    assert owed as real * (1.0 - w) <= owed as real;
  }

  lemma {:induction false} WithholdNonNegative(k: nat)
    ensures Withhold(k) >= 0.0
  {
    if k > 0 { WithholdNonNegative(k - 1); }
  }

  function Sent(cfg: Config, run: Run, k: nat, payable: set<Miner>, m: Miner): (n: nat)
    ensures n <= Owed(run, m)
  {
    SentAtMostOwed(Owed(run, m), cfg.minPayment, k, m in payable);
    SentTo(Owed(run, m), cfg.minPayment, Withhold(k), m in payable)
  }

  /** The update that settle fills in on its k-th attempt. */
  function MakeUpdate(cfg: Config, run: Run, k: nat, payable: set<Miner>): Update {
    Update(
      map m | m in Workers(run) :: Owed(run, m) - Sent(cfg, run, k, payable, m),
      map m | m in Workers(run) && Sent(cfg, run, k, payable, m) > 0 :: Sent(cfg, run, k, payable, m),
      run.confirmed, run.orphaned, run.deleteRounds, run.hi)
  }

  /** What the wallet and the node say about a pending block's coinbase. */
  datatype Outcome = Retry | Lost | Young | Mature(reward: nat)

  function Orphan(run: Run, b: Block): Run {
    run.(orphaned := run.orphaned + [b], deleteRounds := run.deleteRounds + [b.height])
  }

  /** One turn of the loop over the pending blocks. */
  ghost function Classified(cfg: Config, st: Store, run: Run, b: Block, o: Outcome): Run {
    match o
    case Retry => run
    case Young => run
    case Lost => Orphan(run, b)
    case Mature(reward) =>
      if cfg.mode == PPS then
        run.(confirmed := run.confirmed + [b], deleteRounds := run.deleteRounds + [b.height])
      else
        var dist := Attribute(cfg, st, b, reward);
        if dist == map[] then Orphan(run, b)
        else run.(rewards := AddPaid(run.rewards, dist), awards := run.awards + [Award(b, reward, dist, st.log)])
  }

  function AwardBlocks(awards: seq<Award>): seq<Block> {
    seq(|awards|, i requires 0 <= i < |awards| => awards[i].block)
  }

  function Heights(blocks: seq<Block>): seq<nat> {
    seq(|blocks|, i requires 0 <= i < |blocks| => blocks[i].height)
  }

  /** The matured blocks enter the update before it is settled. */
  function Finished(run: Run): Run {
    var blocks := AwardBlocks(run.awards);
    run.(confirmed := run.confirmed + blocks, deleteRounds := run.deleteRounds + Heights(blocks))
  }

  /** The update of a run that only moves orphans. */
  function OrphanUpdate(run: Run): Update {
    Update(map[], map[], run.confirmed, run.orphaned, run.deleteRounds, run.hi)
  }

  function PpsReward(cfg: Config, diff: real): nat
    requires cfg.magnitude > 0.0
  {
    CoinToSat(diff * cfg.ppsRate, cfg.magnitude)
  }

  /** pps: each miner's reward for the difficulty it logged. */
  function PpsRewards(cfg: Config, work: map<Miner, real>): map<Miner, nat>
    requires cfg.magnitude > 0.0
  {
    map m | m in work :: PpsReward(cfg, work[m])
  }

  function Listing(st: Store, list: seq<Block>): bool {
    Elems(list) == st.pending && |list| == |st.pending|
  }

  /** The highest score among the entries newer than a cursor, else the cursor. */
  function MaxSeq(log: seq<Entry>, cursor: nat): nat {
    if log == [] then cursor
    else
      var rest := MaxSeq(log[..|log| - 1], cursor);
      if log[|log| - 1].seqNo > rest then log[|log| - 1].seqNo else rest
  }

  function StampTxid(key: IntentKey, txid: string): IntentKey {
    match key
    case NoIntent => Torn(txid)
    case Intent(u, _) => Intent(u, txid)
    case Torn(_) => Torn(txid)
  }

  /** ApplyPayments, with the history it leaves. */
  function Committed(s: Sys, u: Update): Sys {
    s.(store := Commit(s.store, u),
       awards := s.awards + s.plan.awards,
       credits := s.credits + [Range(s.plan.lo, s.plan.hi, s.plan.work)],
       dropped := s.dropped + map h | h in u.deleteRounds :: |s.seals|,
       sent := false)
  }

  // ------------------------------------------------------------------
  // Steps
  // ------------------------------------------------------------------

  datatype Step =
    // share writer
    | WBegin(share: Share, accepted: bool)
    | WExec
    | WDrop
    // payer
    | Reconcile
    | ResumeApply
    | ListPending(list: seq<Block>)
    | ReadCursor
    | ReadShares
    | SeedBalances
    | Classify(outcome: Outcome)
    | FinishScan
    | Plan(payable: set<Miner>)
    | Send
    | Receive
    | Stamp
    | Clear
    | Apply
    | Abort
    // wallet, network, machine, operator
    | WalletAccept(id: string)
    | WalletRefuse(short: bool)
    | LoseReply
    | Crash
    | OperatorClear

  ghost predicate Enabled(cfg: Config, s: Sys, step: Step) {
    match step
    case WBegin(share, accepted) =>
      && s.writer.Free?
      && share.diff >= 0.0
      && Recordable(share, accepted)
      && s.store.lastSeq + 1 < TWO_TO_THE_63 // INCR answers an error beyond
      && (share.hasBlock && accepted ==> share.valid)
    case WExec => s.writer.Busy?
    case WDrop => s.writer.Busy?
    case Reconcile => s.payer.Idle?
    case ResumeApply => s.payer.Resume?
    case ListPending(list) => ((s.payer.Ready? && cfg.mode != PPS) || s.payer.Seeded?) && Listing(s.store, list)
    case ReadCursor => s.payer.Ready? && cfg.mode == PPS
    case ReadShares => s.payer.CursorRead?
    case SeedBalances => s.payer.Listed? || s.payer.SharesRead?
    case Classify(_) => s.payer.Scan? && s.payer.todo != []
    case FinishScan => s.payer.Scan? && s.payer.todo == []
    case Plan(_) => s.payer.Planning?
    case Send => s.payer.Persisted?
    case Receive => s.payer.Awaiting? && s.net.Answered?
    case Stamp => s.payer.Stamping?
    case Clear => s.payer.Clearing?
    case Apply => s.payer.Committing?
    case Abort => true
    case WalletAccept(_) => s.net.Request?
    case WalletRefuse(_) => s.net.Request?
    case LoseReply => s.net.Answered?
    case Crash => true
    case OperatorClear =>
      // the operator found an unstamped intent and no trace of it in the wallet
      s.payer.Idle? && s.store.intent.Intent? && s.store.intent.txid == "" && !s.sent && !s.net.Request?
  }

  ghost function Do(cfg: Config, s: Sys, step: Step): Sys
    requires cfg.magnitude > 0.0
    requires Enabled(cfg, s, step)
  {
    match step
    case WBegin(share, accepted) =>
      if share.valid then
        var n := s.store.lastSeq + 1;
        s.(store := s.store.(lastSeq := n), writer := Busy(share, accepted, n, FirstStage()))
      else s
    case WExec => WriterExec(cfg, s)
    case WDrop => s.(writer := Free)
    case Reconcile =>
      s.(payer := match s.store.intent
           case NoIntent => Ready
           case Intent(u, txid) => if txid != "" then Resume(u) else Idle
           case Torn(_) => Idle)
    case ResumeApply => Committed(s, s.payer.u).(payer := Ready)
    case ListPending(list) =>
      if s.payer.Seeded? then s.(payer := Scan(s.payer.run, list))
      else s.(payer := if list == [] then Idle else Listed(list))
    case ReadCursor => s.(payer := CursorRead(s.store.cursor))
    case ReadShares =>
      var lo := s.payer.lo;
      var newer := After(s.store.log, lo);
      s.(payer := SharesRead(lo, Totals(newer), MaxSeq(newer, lo)))
    case SeedBalances =>
      if s.payer.Listed? then
        s.(payer := Scan(NO_RUN.(balances := s.store.balances), s.payer.todo))
      else
        var SharesRead(lo, work, hi) := s.payer;
        s.(payer := Seeded(NO_RUN.(balances := s.store.balances, rewards := PpsRewards(cfg, work), lo := lo, hi := hi,
            work := work)))
    case Classify(o) =>
      var Scan(run, todo) := s.payer;
      s.(payer := Scan(Classified(cfg, s.store, run, todo[0], o), todo[1..]))
    case FinishScan =>
      var run := s.payer.run;
      if cfg.mode == PPS then s.(payer := Planning(run, 0))
      else if run.awards != [] then s.(payer := Planning(Finished(run), 0))
      else if run.orphaned == [] then s.(payer := Idle)
      else s.(payer := Committing(OrphanUpdate(run)), plan := run)
    case Plan(payable) =>
      var Planning(run, k) := s.payer;
      var u := MakeUpdate(cfg, run, k, payable);
      if u.paid == map[] then s.(payer := Committing(u), plan := run)
      else s.(store := s.store.(intent := Intent(u, "")), payer := Persisted(run, u, k), plan := run)
    case Send =>
      var Persisted(run, u, k) := s.payer;
      s.(payer := Awaiting(run, u, k), net := Request(u.paid))
    case Receive =>
      var Awaiting(run, u, k) := s.payer;
      s.(net := Quiet,
         payer := match s.net.reply
           case Txid(id) => Stamping(u, id)
           case Short => if Withhold(k + 1) >= 1.0 then Clearing else Planning(run, k + 1)
           case Refused => Clearing)
    case Stamp => s.(store := s.store.(intent := StampTxid(s.store.intent, s.payer.txid)),
        payer := Committing(s.payer.u))
    case Clear => s.(store := s.store.(intent := NoIntent), payer := Idle)
    case Apply => Committed(s, s.payer.u).(payer := Idle)
    case Abort => s.(payer := Idle)
    case WalletAccept(id) =>
      s.(net := Answered(Txid(id)), sent := true,
         wallet := s.wallet + [Broadcast(s.net.paid, Elems(s.plan.confirmed), s.plan.lo, s.plan.hi)])
    case WalletRefuse(short) => s.(net := Answered(if short then Short else Refused))
    case LoseReply => s.(net := Quiet)
    case Crash => s.(payer := Idle, writer := Free)
    case OperatorClear => s.(store := s.store.(intent := NoIntent), net := Quiet)
  }

  /** A run of the system: steps taken one after the other. */
  ghost predicate CanRun(cfg: Config, s: Sys, steps: seq<Step>)
    requires cfg.magnitude > 0.0
    decreases |steps|
  {
    steps == [] || (Enabled(cfg, s, steps[0]) && CanRun(cfg, Do(cfg, s, steps[0]), steps[1..]))
  }

  ghost function RunFrom(cfg: Config, s: Sys, steps: seq<Step>): Sys
    requires cfg.magnitude > 0.0
    requires CanRun(cfg, s, steps)
    decreases |steps|
  {
    if steps == [] then s else RunFrom(cfg, Do(cfg, s, steps[0]), steps[1..])
  }

  ghost predicate Reachable(cfg: Config, s: Sys)
    requires cfg.magnitude > 0.0
  {
    exists steps :: CanRun(cfg, INIT, steps) && RunFrom(cfg, INIT, steps) == s
  }

  lemma {:induction false} RunConcat(cfg: Config, s: Sys, a: seq<Step>, b: seq<Step>)
    requires cfg.magnitude > 0.0
    requires CanRun(cfg, s, a) && CanRun(cfg, RunFrom(cfg, s, a), b)
    ensures CanRun(cfg, s, a + b)
    ensures RunFrom(cfg, s, a + b) == RunFrom(cfg, RunFrom(cfg, s, a), b)
    decreases |a|
  {
    if a == [] {
      assert a + b == b;
    } else {
      assert (a + b)[0] == a[0] && (a + b)[1..] == a[1..] + b;
      RunConcat(cfg, Do(cfg, s, a[0]), a[1..], b);
    }
  }
}
