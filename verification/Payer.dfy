/** The payment processor (payments/payer.go): each payout run, call by call, is proved to
    be a path of the payout protocol. Worker and update records are values that the run
    reassigns. */
module Payer {
  import opened Prelude
  import opened Shares
  import opened Coins
  import opened Ledger
  import opened Protocol
  import opened Storage

  /** One miner's owed amount during a payout run. */
  datatype Worker = Worker(address: Miner, balance: nat, reward: nat, sent: nat)

  // ------------------------------------------------------------------
  // What the wallet and the node answer
  // ------------------------------------------------------------------

  datatype Category = Immature | Generate | OrphanTx | Kicked | OtherCategory

  datatype Detail = Detail(address: string, category: Category, amount: real)

  /** gettransaction: no response, an error code, an unreadable result, or a transaction. */
  datatype TxReply =
    | NoTxReply
    | TxError(code: int)
    | TxGarbled
    | Tx(confirmations: int, amount: real, details: seq<Detail>)

  datatype BlockReply = NoBlockReply | BlockError | BlockGarbled | BlockAt(confirmations: int)

  /** Everything outside the pool during one run. sendmany is indexed by attempt; None is
      no response. */
  datatype Wallet = Wallet(
    tx: Block -> TxReply,
    chain: Block -> BlockReply,
    payable: Miner -> bool,
    sendmany: nat -> Option<Reply>)

  /** classifyBlock's result: reward in coins, category and confirmations. */
  datatype Class = Transient | Class(reward: real, category: Category, confirmations: int)

  /** The first detail that pays the pool address. */
  function PoolDetail(details: seq<Detail>, pool: string): Option<Detail> {
    if details == [] then None
    else if details[0].address == pool then Some(details[0])
    else PoolDetail(details[1..], pool)
  }

  /** What a reply means for a pending block (classifyBlock, classifyMissingTx). */
  function ClassOf(tx: TxReply, chain: BlockReply, pool: string): Class {
    match tx
    case NoTxReply => Transient
    case TxGarbled => Transient
    case TxError(code) =>
      if code != -5 then Transient
      else (match chain
            case BlockError => Class(0.0, OrphanTx, 0)
            case BlockAt(n) => if n < 0 then Class(0.0, OrphanTx, 0) else Transient
            case _ => Transient)
    case Tx(n, amount, details) =>
      if n < 0 then Class(0.0, OrphanTx, 0)
      else
        match PoolDetail(details, pool)
        case Some(d) => Class(d.amount, d.category, n)
        case None => Class(amount, Generate, n)
  }

  /** The branch processPayments takes for a classified block. */
  function OutcomeOf(cfg: Config, c: Class): Outcome
    requires cfg.magnitude > 0.0
  {
    match c
    case Transient => Retry
    case Class(reward, category, n) =>
      if category == OrphanTx || category == Kicked then Lost
      else if n < cfg.minConfirmations then Young
      else Mature(CoinToSat(reward, cfg.magnitude))
  }

  /** A wallet that merely does not know a transaction never costs a miner a block that the
      node still has on its chain. */
  lemma OnChainBlockKept(cfg: Config, chain: BlockReply, pool: string)
    requires cfg.magnitude > 0.0
    ensures OutcomeOf(cfg, ClassOf(TxError(-5), chain, pool)) == Lost
            <==> chain.BlockError? || (chain.BlockAt? && chain.confirmations < 0)
    ensures OutcomeOf(cfg, ClassOf(TxError(-5), chain, pool)) in {Lost, Retry}
  {
  }

  // ------------------------------------------------------------------
  // Workers
  // ------------------------------------------------------------------

  /** The workers, filed under their addresses, hold a run's balances and rewards. */
  ghost predicate Matches(workers: map<Miner, Worker>, run: Run) {
    && workers.Keys == Workers(run)
    && (forall m | m in workers ::
          && workers[m].address == m
          && workers[m].balance == Get(run.balances, m) && workers[m].reward == Get(run.rewards, m))
  }

  /** The update holds a run's block lists and cursor. */
  ghost predicate Lists(u: Update, run: Run) {
    && u.confirmed == run.confirmed && u.orphaned == run.orphaned
    && u.deleteRounds == run.deleteRounds && u.cursor == run.hi
    && u.balances.Keys <= Workers(run) && u.paid.Keys <= Workers(run)
  }

  // ------------------------------------------------------------------
  // What a run comes to
  // ------------------------------------------------------------------

  /** Whether a payout to m is attempted: the cached verdict, else the wallet's. */
  function CanPay(valid: map<Miner, bool>, wallet: Wallet, m: Miner): bool {
    if m in valid then valid[m] else wallet.payable(m)
  }

  function PayableIn(valid: map<Miner, bool>, wallet: Wallet, run: Run): set<Miner> {
    set m | m in Workers(run) && CanPay(valid, wallet, m)
  }

  /** How settling ends: on which attempt nothing was left to send or a txid came back, on
      which attempt no answer came, or with a refusal. */
  datatype Settlement = Done(attempt: nat) | Unanswered(attempt: nat) | GaveUp

  /** The attempts from the k-th on, as the wallet answers them. */
  function SettleFrom(cfg: Config, run: Run, wallet: Wallet, payable: set<Miner>, k: nat): Settlement
    requires k <= 7
    decreases 8 - k
  {
    if MakeUpdate(cfg, run, k, payable).paid == map[] then Done(k)
    else
      match wallet.sendmany(k)
      case None => Unanswered(k)
      case Some(Txid(_)) => Done(k)
      case Some(Refused) => GaveUp
      case Some(Short) => if k < 7 then SettleFrom(cfg, run, wallet, payable, k + 1) else GaveUp
  }

  /** What a run does to the store: nothing, commit an update, leave an intent without a txid
      behind, or drop the intent. */
  datatype Decision = Keep | Commits(update: Update) | LeaveIntent(update: Update) | DropIntent

  function Carried(st: Store, d: Decision): Store {
    match d
    case Keep => st
    case Commits(u) => Commit(st, u)
    case LeaveIntent(u) => st.(intent := Intent(u, ""))
    case DropIntent => st.(intent := NoIntent)
  }

  /** Settling a run: committed where it succeeded. */
  function Settled(cfg: Config, run: Run, wallet: Wallet, valid: map<Miner, bool>): Decision {
    var payable := PayableIn(valid, wallet, run);
    match SettleFrom(cfg, run, wallet, payable, 0)
    case Done(k) => Commits(MakeUpdate(cfg, run, k, payable))
    case Unanswered(k) => LeaveIntent(MakeUpdate(cfg, run, k, payable))
    case GaveUp => DropIntent
  }

  /** A run after looking at the listed blocks one by one. */
  ghost function Scanned(cfg: Config, st: Store, wallet: Wallet, pool: string, run: Run, list: seq<Block>): Run
    requires cfg.magnitude > 0.0
    decreases |list|
  {
    if list == [] then run
    else
      var o := OutcomeOf(cfg, ClassOf(wallet.tx(list[0]), wallet.chain(list[0]), pool));
      Scanned(cfg, st, wallet, pool, Classified(cfg, st, run, list[0], o), list[1..])
  }

  /** The end of a prop, pplns or solo run: settle what matured, else move the orphans. */
  function BlocksSettled(cfg: Config, run: Run, wallet: Wallet, valid: map<Miner, bool>): Decision {
    if run.awards != [] then Settled(cfg, Finished(run), wallet, valid)
    else if run.orphaned == [] then Keep
    else Commits(OrphanUpdate(run))
  }

  /** The pps run before the pending blocks are looked at. */
  function PpsRun(cfg: Config, st: Store): Run
    requires cfg.magnitude > 0.0
  {
    var newer := After(st.log, st.cursor);
    NO_RUN.(balances := st.balances, rewards := PpsRewards(cfg, Totals(newer)),
           lo := st.cursor, hi := MaxSeq(newer, st.cursor), work := Totals(newer))
  }

  /** What a whole run that found no intent does, for the given records of the pending blocks. */
  ghost function RunDecision(cfg: Config, st: Store, list: seq<Block>, wallet: Wallet, pool: string,
                             valid: map<Miner, bool>): Decision
    requires cfg.magnitude > 0.0
  {
    if cfg.mode == PPS then Settled(cfg, Scanned(cfg, st, wallet, pool, PpsRun(cfg, st), list), wallet, valid)
    else if list == [] then Keep
    else BlocksSettled(cfg, Scanned(cfg, st, wallet, pool, NO_RUN.(balances := st.balances), list), wallet, valid)
  }

  ghost function RunResult(cfg: Config, st: Store, list: seq<Block>, wallet: Wallet, pool: string,
                           valid: map<Miner, bool>): Store
    requires cfg.magnitude > 0.0
  {
    Carried(st, RunDecision(cfg, st, list, wallet, pool, valid))
  }

  /** The store is what a run makes of st, in some order of its pending blocks. */
  ghost predicate RanOn(cfg: Config, st: Store, after: Store, wallet: Wallet, pool: string, valid: map<Miner, bool>)
    requires cfg.magnitude > 0.0
  {
    exists list :: Listing(st, list) && after == RunResult(cfg, st, list, wallet, pool, valid)
  }

  function CarriedKeys(k: Keys, d: Decision): Keys {
    match d
    case Keep => k
    case Commits(u) => CommitKeys(k, u)
    case LeaveIntent(u) => k.(intent := Intent(u, ""))
    case DropIntent => k.(intent := NoIntent)
  }

  /** The keys are what a run makes of k, in some order of its pending members; one member that
      cannot be read stops the run. */
  ghost predicate KeysRanOn(cfg: Config, codec: LogText.Codec, k: Keys, after: Keys, wallet: Wallet, pool: string,
                            valid: map<Miner, bool>)
    requires cfg.magnitude > 0.0
  {
    if Readable(k.pending) then
      exists members, list ::
        ReadFrom(k.pending, members, list)
            && after == CarriedKeys(k, RunDecision(cfg, StoreOf(codec, k), list, wallet, pool, valid))
    else after == k
  }

  /** The keys after one payout cycle: an intent without a txid stops it, one with a txid is
      committed first. */
  ghost predicate Processed(cfg: Config, codec: LogText.Codec, k: Keys, after: Keys, wallet: Wallet, pool: string,
                            valid: map<Miner, bool>)
    requires cfg.magnitude > 0.0
  {
    match k.intent
    case NoIntent => KeysRanOn(cfg, codec, k, after, wallet, pool, valid)
    case Intent(u, txid) => if txid == "" then after == k
        else KeysRanOn(cfg, codec, CommitKeys(k, u), after, wallet, pool, valid)
    case Torn(_) => after == k
  }

  lemma CleanCarried(codec: LogText.Codec, k: Keys, d: Decision)
    requires Clean(codec, k)
    ensures Clean(codec, CarriedKeys(k, d)) && StoreOf(codec, CarriedKeys(k, d)) == Carried(StoreOf(codec, k), d)
  {
    hide AllCanonical, LogText.Entries, LogText.CleanLog, BlocksOf, Commit, CommitKeys;
    if d.Commits? { CommitsClean(codec, k, d.update); }
  }

  /** On clean keys the run over the texts is the run over the records. */
  lemma CleanRun(cfg: Config, codec: LogText.Codec, k: Keys, after: Keys, wallet: Wallet, pool: string,
                 valid: map<Miner, bool>)
    requires cfg.magnitude > 0.0 && Clean(codec, k) && KeysRanOn(cfg, codec, k, after, wallet, pool, valid)
    ensures Clean(codec, after) && RanOn(cfg, StoreOf(codec, k), StoreOf(codec, after), wallet, pool, valid)
  {
    hide StoreOf, RunDecision, CarriedKeys, Carried, BlockText.Canonical, LogText.CleanLog;
    AllReadable(k.pending);
    var members, list :| ReadFrom(k.pending, members, list)
      && after == CarriedKeys(k, RunDecision(cfg, StoreOf(codec, k), list, wallet, pool, valid));
    ReadsListing(k.pending, members, list);
    StorePending(codec, k);
    CleanCarried(codec, k, RunDecision(cfg, StoreOf(codec, k), list, wallet, pool, valid));
    assert Listing(StoreOf(codec, k), list);
  }

  lemma StorePending(codec: LogText.Codec, k: Keys)
    ensures StoreOf(codec, k).pending == BlocksOf(k.pending)
  {
  }

  /** A miner who is owed just one reward is sent all of it. */
  lemma WholeReward(cfg: Config, run: Run, m: Miner, reward: nat)
    requires run.balances.Keys <= {m} && Get(run.balances, m) == 0
    requires run.rewards == map[m := reward] && reward > 0 && reward >= cfg.minPayment
    ensures Workers(run) == {m}
    ensures MakeUpdate(cfg, run, 0, {m})
            == Update(map[m := 0], map[m := reward], run.confirmed, run.orphaned, run.deleteRounds, run.hi)
  {
    SendsAll(cfg, run, m, reward);
    hide Sent, Owed, Workers;
    var u := MakeUpdate(cfg, run, 0, {m});
    assert u.paid.Keys == {m} && u.balances.Keys == {m};
    assert u.paid[m] == reward && u.balances[m] == 0;
    OneKey(u.paid, m, reward);
    OneKey(u.balances, m, 0);
  }

  lemma OneKey(amounts: map<Miner, nat>, m: Miner, n: nat)
    requires amounts.Keys == {m} && amounts[m] == n
    ensures amounts == map[m := n]
  {
  }

  lemma SendsAll(cfg: Config, run: Run, m: Miner, reward: nat)
    requires run.balances.Keys <= {m} && Get(run.balances, m) == 0
    requires run.rewards == map[m := reward] && reward > 0 && reward >= cfg.minPayment
    ensures Workers(run) == {m} && Owed(run, m) == reward && Sent(cfg, run, 0, {m}, m) == reward
  {
    assert ToSend(reward, Withhold(0)) == reward;
  }

  /** How one broadcast attempt ended. */
  datatype SendEnd = Paid | Failed | TryAgain(next: real)

  class PaymentManager {
    const cfg: Config
    const poolAddress: string
    const db: DB
    var validAddr: map<Miner, bool>

    constructor (cfg: Config, poolAddress: string, db: DB)
      ensures this.cfg == cfg && this.poolAddress == poolAddress && this.db == db && validAddr == map[]
    {
      this.cfg, this.poolAddress, this.db, validAddr := cfg, poolAddress, db, map[];
    }

    /** validRecipient: ask once, then remember. */
    method ValidRecipient(wallet: Wallet, m: Miner) returns (ok: bool)
      modifies this`validAddr
      ensures ok == CanPay(old(validAddr), wallet, m)
      ensures forall n :: CanPay(validAddr, wallet, n) == CanPay(old(validAddr), wallet, n)
    {
      if m in validAddr {
        return validAddr[m];
      }
      ok := wallet.payable(m);
      validAddr := validAddr[m := ok];
    }

    /** The first loop of settle: what each worker is sent, and the sendmany amounts. */
    method ComputeAmounts(workers0: map<Miner, Worker>, withhold: real, wallet: Wallet, ghost run: Run, ghost k: nat)
      returns (workers: map<Miner, Worker>, amounts: map<Miner, nat>, ghost payable: set<Miner>)
      requires Matches(workers0, run) && withhold == Withhold(k)
      modifies this`validAddr
      ensures payable == PayableIn(old(validAddr), wallet, run)
      ensures forall m :: CanPay(validAddr, wallet, m) == CanPay(old(validAddr), wallet, m)
      ensures Matches(workers, run)
      ensures forall m | m in workers :: workers[m].sent == Sent(cfg, run, k, payable, m)
      ensures amounts == MakeUpdate(cfg, run, k, payable).paid
    {
      hide Sent, SentTo, ToSend, Withhold, MakeUpdate, Workers, Owed, Matches;
      payable := PayableIn(validAddr, wallet, run);
      ghost var paid := MakeUpdate(cfg, run, k, payable).paid;
      UpdateKeys(cfg, run, k, payable);
      WorkersOf(workers0, run);
      workers, amounts := workers0, map[];
      var todo := workers0.Keys;
      while todo != {}
        invariant workers.Keys == workers0.Keys && todo <= workers0.Keys && amounts.Keys <= workers0.Keys - todo
        invariant forall m :: CanPay(validAddr, wallet, m) == CanPay(old(validAddr), wallet, m)
        invariant Matches(workers, run)
        invariant forall m | m in workers && m !in todo :: workers[m].sent == Sent(cfg, run, k, payable, m)
        invariant forall m | m in workers && m !in todo ::
                    if m in paid then m in amounts && amounts[m] == paid[m] else m !in amounts
        decreases |todo|
      {
        var m :| m in todo;
        var w := workers[m];
        var toSend := ToSend(w.balance + w.reward, withhold);
        var pay := false;
        if toSend >= cfg.minPayment && toSend > 0 {
          pay := ValidRecipient(wallet, w.address);
        }
        WorkerOwes(workers, run, m);
        SentIs(cfg, run, k, payable, m, toSend);
        UpdateAt(cfg, run, k, payable, m);
        if pay {
          amounts := amounts[w.address := toSend];
        }
        SetSent(workers, run, m, if pay then toSend else 0);
        workers := workers[m := w.(sent := if pay then toSend else 0)];
        todo := todo - {m};
      }
      assert amounts == paid;
    }

    /** The second loop of settle: new balances and payments, refilled on every attempt. */
    method FillUpdate(workers: map<Miner, Worker>, update0: Update, ghost run: Run, ghost k: nat,
                      ghost payable: set<Miner>)
      returns (update: Update)
      requires Matches(workers, run) && Lists(update0, run)
      requires forall m | m in workers :: workers[m].sent == Sent(cfg, run, k, payable, m)
      ensures update == MakeUpdate(cfg, run, k, payable)
    {
      hide Sent, MakeUpdate, Workers, Owed, Matches, Lists;
      FilledLists(update0, run);
      WorkersOf(workers, run);
      ghost var u := MakeUpdate(cfg, run, k, payable);
      UpdateKeys(cfg, run, k, payable);
      var balances, paid := update0.balances, update0.paid;
      var todo := workers.Keys;
      while todo != {}
        invariant todo <= workers.Keys
        invariant balances.Keys <= workers.Keys && paid.Keys <= workers.Keys
        invariant forall m | m in workers && m !in todo :: m in balances && balances[m] == u.balances[m]
        invariant forall m | m in workers && m !in todo ::
                    if m in u.paid then m in paid && paid[m] == u.paid[m] else m !in paid
        decreases |todo|
      {
        var m :| m in todo;
        var w := workers[m];
        WorkerOwes(workers, run, m);
        UpdateAt(cfg, run, k, payable, m);
        balances := balances[w.address := (w.balance + w.reward) - w.sent];
        if w.sent > 0 {
          paid := paid[w.address := w.sent];
        } else {
          paid := paid - {w.address};
        }
        todo := todo - {m};
      }
      update := update0.(balances := balances, paid := paid);
      assert balances == u.balances;
      assert paid == u.paid;
    }

    /** sendmany and what follows its answer: stamp the txid, clear the intent, or report that
        the wallet is short of funds for the fees. */
    method Broadcast(update: Update, withhold: real, wallet: Wallet, ghost run: Run, ghost k: nat, ghost s: Sys)
      returns (end: SendEnd, ghost steps: seq<Step>, ghost t: Sys)
      requires cfg.magnitude > 0.0 && withhold == Withhold(k) && k <= 7
      requires s.store == db.Abs() && s.payer == Persisted(run, update, k) && s.net == Quiet
      requires update.paid != map[] && db.intent == Intent(update, "")
      modifies db`intent
      ensures end == EndOf(update, wallet, k) && db.intent == IntentAfter(update, wallet, k)
      ensures db.IntentOnly(old(db.AllKeys()), old(db.Abs()), old(db.Valid()))
      ensures Leads(cfg, s, steps, t) && t.store == db.Abs() && t.writer == s.writer
      ensures match end
        case Paid => t.payer == Committing(update) && t.net == Quiet
        case Failed => t.payer == Idle
        case TryAgain(_) => t.payer == Planning(run, k + 1) && t.net == Quiet
    {
      hide Withhold, Leads, AttemptIndex, DB.Abs, DB.AllKeys, DB.Valid;
      db.Unchanged();
      AttemptOf(k);
      match wallet.sendmany(AttemptIndex(withhold))
      case None =>
        steps, t := SentNoAnswer(cfg, s);
        end := Failed;
      case Some(Txid(id)) =>
        db.SetPayoutIntentTxid(id);
        steps, t := SentAndStamped(cfg, s, id);
        end := Paid;
      case Some(Refused) =>
        db.DelPayoutIntent();
        steps, t := SentAndCleared(cfg, s, Refused);
        end := Failed;
      case Some(Short) =>
        var next := withhold * 2.0;
        if next < 0.01 {
          next := 0.01;
        }
        NextWithhold(k);
        AtMostEightAttempts(k + 1);
        if next >= 1.0 {
          db.DelPayoutIntent();
          steps, t := SentAndCleared(cfg, s, Short);
          end := Failed;
        } else {
          steps, t := SentTooMuch(cfg, s);
          end := TryAgain(next);
        }
    }

    /** settle: compute, persist the intent, broadcast, stamp; on -6 withhold more and try
        again. Every call is the next step of the protocol, and what sendmany is handed is
        what the persisted update records as paid. */
    method Settle(workers0: map<Miner, Worker>, update0: Update, withhold: real, wallet: Wallet,
                  ghost run: Run, ghost k: nat, ghost s: Sys)
      returns (ok: bool, update: Update, attempts: nat, ghost steps: seq<Step>, ghost t: Sys)
      requires cfg.magnitude > 0.0
      requires Matches(workers0, run) && Lists(update0, run)
      requires withhold == Withhold(k) && k <= 7
      requires s.store == db.Abs() && s.payer == Planning(run, k) && s.net == Quiet
      modifies this`validAddr, db`intent
      ensures Leads(cfg, s, steps, t) && t.store == db.Abs() && t.writer == s.writer
      ensures if ok then t.payer == Committing(update) && t.net == Quiet else t.payer == Idle
      ensures k + attempts <= 8
      ensures SettledAs(cfg, run, wallet, PayableIn(old(validAddr), wallet, run), k, ok, update, db.intent)
      ensures db.IntentOnly(old(db.AllKeys()), old(db.Abs()), old(db.Valid()))
      decreases 8 - k
    {
      hide MakeUpdate, Withhold, Matches, Lists, Leads, PayableIn, SettledAs, CanPay;
      var workers, end;
      ghost var payable;
      workers, update, attempts, end, payable, steps, t := Attempt(workers0, update0, withhold, wallet, run, k, s);
      ok := end.Paid?;
      AttemptAnswered(cfg, run, wallet, payable, k, end, update, db.intent);
      if end.TryAgain? {
        SamePayable(old(validAddr), validAddr, wallet, run);
        UpdateLists(cfg, run, k, payable);
        ghost var more, mid;
        ok, update, attempts, more, mid := Settle(workers, update, end.next, wallet, run, k + 1, t);
        steps, t := TakeMore(cfg, s, steps, t, more, mid);
        attempts := attempts + 1;
        RetryAnswered(cfg, run, wallet, payable, k, ok, update, db.intent);
      }
    }

    /** One attempt: amounts and update, the intent before the broadcast, the broadcast. With
        nothing to send there is neither. */
    method Attempt(workers0: map<Miner, Worker>, update0: Update, withhold: real, wallet: Wallet,
                   ghost run: Run, ghost k: nat, ghost s: Sys)
      returns (workers: map<Miner, Worker>, update: Update, attempts: nat, end: SendEnd,
               ghost payable: set<Miner>, ghost steps: seq<Step>, ghost t: Sys)
      requires cfg.magnitude > 0.0
      requires Matches(workers0, run) && Lists(update0, run)
      requires withhold == Withhold(k) && k <= 7
      requires s.store == db.Abs() && s.payer == Planning(run, k) && s.net == Quiet
      modifies this`validAddr, db`intent
      ensures payable == PayableIn(old(validAddr), wallet, run)
      ensures forall m :: CanPay(validAddr, wallet, m) == CanPay(old(validAddr), wallet, m)
      ensures Leads(cfg, s, steps, t) && t.store == db.Abs() && t.writer == s.writer
      ensures Matches(workers, run) && update == MakeUpdate(cfg, run, k, payable)
      ensures attempts == if update.paid == map[] then 0 else 1
      ensures end == EndOf(update, wallet, k)
      ensures update.paid != map[] ==> db.intent == IntentAfter(update, wallet, k)
      ensures db.IntentOnly(old(db.AllKeys()), old(db.Abs()), old(db.Valid()))
      ensures match end
        case Paid => t.payer == Committing(update) && t.net == Quiet
        case Failed => t.payer == Idle
        case TryAgain(_) => t.payer == Planning(run, k + 1) && t.net == Quiet
    {
      hide MakeUpdate, Withhold, Matches, Lists, Leads, PayableIn, CanPay, DB.Abs, DB.AllKeys, DB.Valid, DB.IntentOnly;
      db.Unchanged();
      var amounts;
      workers, amounts, payable := ComputeAmounts(workers0, withhold, wallet, run, k);
      update := FillUpdate(workers, update0, run, k, payable);
      assert update == MakeUpdate(cfg, run, k, payable) && amounts == update.paid;
      attempts := 0;
      if |amounts| == 0 {
        assert amounts == map[];
        steps, t := TakePlan(cfg, s, payable);
        end := Paid;
      } else {
        assert amounts != map[];
        end, steps, t := PersistAndSend(update, withhold, wallet, run, k, payable, s);
        attempts := 1;
      }
    }

    /** The intent, then the broadcast. */
    method PersistAndSend(update: Update, withhold: real, wallet: Wallet, ghost run: Run, ghost k: nat,
                          ghost payable: set<Miner>, ghost s: Sys)
      returns (end: SendEnd, ghost steps: seq<Step>, ghost t: Sys)
      requires cfg.magnitude > 0.0 && withhold == Withhold(k) && k <= 7
      requires s.store == db.Abs() && s.payer == Planning(run, k) && s.net == Quiet
      requires update == MakeUpdate(cfg, run, k, payable) && update.paid != map[]
      modifies db`intent
      ensures end == EndOf(update, wallet, k) && db.intent == IntentAfter(update, wallet, k)
      ensures db.IntentOnly(old(db.AllKeys()), old(db.Abs()), old(db.Valid()))
      ensures Leads(cfg, s, steps, t) && t.store == db.Abs() && t.writer == s.writer
      ensures match end
        case Paid => t.payer == Committing(update) && t.net == Quiet
        case Failed => t.payer == Idle
        case TryAgain(_) => t.payer == Planning(run, k + 1) && t.net == Quiet
    {
      hide MakeUpdate, Withhold, Leads, DB.Abs, DB.AllKeys, DB.Valid;
      db.PutPayoutIntent(update);
      steps, t := TakePlan(cfg, s, payable);
      ghost var more, mid;
      end, more, mid := Broadcast(update, withhold, wallet, run, k, t);
      steps, t := TakeMore(cfg, s, steps, t, more, mid);
    }

    // ----------------------------------------------------------------
    // Attribution
    // ----------------------------------------------------------------

    /** attribute: who gets a mature block's reward, by pay mode. */
    method AttributeReward(pb: Block, reward: nat) returns (dist: map<Miner, nat>)
      ensures dist == Attribute(cfg, db.Abs(), pb, reward)
    {
      hide SplitByShares, WindowShares;
      if cfg.mode == Solo {
        dist := if pb.finder == "" then map[] else map[pb.finder := reward];
      } else if cfg.mode == PPLNS && cfg.window > 0.0 {
        var shares := db.GetPPLNSShares(pb.mark, cfg.window);
        dist := Split(reward, shares);
      } else {
        var shares := if pb.height in db.rounds then db.rounds[pb.height] else map[];
        dist := Split(reward, shares);
      }
    }

    // ----------------------------------------------------------------
    // Reading the store
    // ----------------------------------------------------------------

    /** One worker per carried-over balance. */
    method SeedWorkers(balances: map<Miner, nat>) returns (workers: map<Miner, Worker>)
      ensures Matches(workers, NO_RUN.(balances := balances))
    {
      workers := map[];
      var todo := balances.Keys;
      while todo != {}
        invariant todo <= balances.Keys && workers.Keys == balances.Keys - todo
        invariant forall m | m in workers :: workers[m] == Worker(m, balances[m], 0, 0)
        decreases |todo|
      {
        var m :| m in todo;
        workers := workers[m := Worker(m, balances[m], 0, 0)];
        todo := todo - {m};
      }
    }

    /** classifyBlock: ask the wallet, and the node when the wallet does not know the block;
        otherwise the node's answer makes no difference. */
    method ClassifyBlock(pb: Block, wallet: Wallet) returns (c: Class)
      ensures c == ClassOf(wallet.tx(pb), wallet.chain(pb), poolAddress)
      ensures wallet.tx(pb) != TxError(-5) ==> forall chain :: c == ClassOf(wallet.tx(pb), chain, poolAddress)
    {
      match wallet.tx(pb)
      case NoTxReply => c := Transient;
      case TxGarbled => c := Transient;
      case TxError(code) =>
        if code == -5 {
          match wallet.chain(pb)
          case NoBlockReply => c := Transient;
          case BlockGarbled => c := Transient;
          case BlockError => c := Class(0.0, OrphanTx, 0);
          case BlockAt(n) => c := if n < 0 then Class(0.0, OrphanTx, 0) else Transient;
        } else {
          c := Transient;
        }
      case Tx(n, amount, details) =>
        if n < 0 {
          return Class(0.0, OrphanTx, 0);
        }
        var reward, category := amount, Generate;
        for i := 0 to |details|
          invariant PoolDetail(details, poolAddress) == PoolDetail(details[i..], poolAddress)
          invariant reward == amount && category == Generate
        {
          if details[i].address == poolAddress {
            return Class(details[i].amount, details[i].category, n);
          }
        }
        c := Class(reward, category, n);
    }

    // ----------------------------------------------------------------
    // One payout run
    // ----------------------------------------------------------------

    /** reconcile: finish a stamped intent, halt on an unstamped one. */
    method Reconcile(ghost s: Sys) returns (ok: bool, ghost steps: seq<Step>, ghost t: Sys)
      requires cfg.magnitude > 0.0
      requires db.Valid() ==> s.store == db.Abs() && s.payer.Idle?
      modifies db
      ensures ok <==> old(db.intent == NoIntent || (db.intent.Intent? && db.intent.txid != ""))
      ensures db.AllKeys()
              == if ok && old(db.intent).Intent? then CommitKeys(old(db.AllKeys()), old(db.intent).update)
                  else old(db.AllKeys())
      ensures old(db.Valid()) ==>
                && db.Valid() && Leads(cfg, s, steps, t) && t.store == db.Abs() && t.net == s.net
                && t.writer == s.writer
                && t.payer == if ok then Ready else Idle
    {
      hide Commit, Leads, CommitKeys, StoreOf, Clean;
      ghost var valid := db.Valid();
      steps, t := [], s;
      StoreIntent(db.codec, db.AllKeys());
      if valid { steps, t := TakeReconcile(cfg, s); }
      match db.intent
      case NoIntent => ok := true;
      case Torn(_) => ok := false;
      case Intent(u, txid) =>
        ok := txid != "";
        if ok {
          db.ApplyPayments(u);
          if valid { steps, t := TakeApply(cfg, s, steps, t); }
        }
    }

    /** The loop over the pending blocks: classify each, and take or orphan it. */
    method ScanBlocks(list: seq<Block>, workers0: map<Miner, Worker>, wallet: Wallet, ghost run0: Run, ghost s: Sys)
      returns (workers: map<Miner, Worker>, matured: seq<Block>, orphaned: seq<Block>, deleteRounds: seq<nat>,
               ghost run: Run, ghost steps: seq<Step>, ghost t: Sys)
      requires cfg.magnitude > 0.0
      requires s.store == db.Abs() && s.payer == Scan(run0, list) && Matches(workers0, run0)
      requires run0.awards == [] && run0.confirmed == [] && run0.orphaned == [] && run0.deleteRounds == []
      ensures Leads(cfg, s, steps, t) && t == s.(payer := Scan(run, []))
      ensures run == Scanned(cfg, db.Abs(), wallet, poolAddress, run0, list)
      ensures Matches(workers, run) && run.hi == run0.hi
      ensures orphaned == run.orphaned && deleteRounds == run.deleteRounds
      ensures matured == if cfg.mode == PPS then run.confirmed else AwardBlocks(run.awards)
      ensures cfg.mode != PPS ==> run.confirmed == []
    {
      hide Attribute, Leads, Matches, OutcomeOf, ClassOf;
      workers, matured, orphaned, deleteRounds := workers0, [], [], [];
      run, steps, t := run0, [], s;
      LeadsNowhere(cfg, s);
      for i := 0 to |list|
        invariant Leads(cfg, s, steps, t) && t == s.(payer := Scan(run, list[i..]))
        invariant Scanned(cfg, db.Abs(), wallet, poolAddress, run0, list)
                  == Scanned(cfg, db.Abs(), wallet, poolAddress, run, list[i..])
        invariant Matches(workers, run) && run.hi == run0.hi
        invariant orphaned == run.orphaned && deleteRounds == run.deleteRounds
        invariant matured == if cfg.mode == PPS then run.confirmed else AwardBlocks(run.awards)
        invariant cfg.mode != PPS ==> run.confirmed == []
      {
        var pb := list[i];
        var c := ClassifyBlock(pb, wallet);
        ghost var o := OutcomeOf(cfg, c);
        steps, t := TakeClassify(cfg, s, steps, t, o);
        assert list[i..][1..] == list[i + 1..];
        ghost var before := run;
        run := Classified(cfg, db.Abs(), run, pb, o);
        workers, matured, orphaned, deleteRounds := ScanOne(pb, c, workers, matured, orphaned, deleteRounds, before);
      }
    }

    /** One pending block. */
    method ScanOne(pb: Block, c: Class, workers0: map<Miner, Worker>, matured0: seq<Block>, orphaned0: seq<Block>,
                   deleteRounds0: seq<nat>, ghost run: Run)
      returns (workers: map<Miner, Worker>, matured: seq<Block>, orphaned: seq<Block>, deleteRounds: seq<nat>)
      requires cfg.magnitude > 0.0
      requires Matches(workers0, run) && orphaned0 == run.orphaned && deleteRounds0 == run.deleteRounds
      requires matured0 == if cfg.mode == PPS then run.confirmed else AwardBlocks(run.awards)
      ensures
        var next := Classified(cfg, db.Abs(), run, pb, OutcomeOf(cfg, c));
        && Matches(workers, next) && orphaned == next.orphaned && deleteRounds == next.deleteRounds
        && matured == (if cfg.mode == PPS then next.confirmed else AwardBlocks(next.awards))
        && next.hi == run.hi && (cfg.mode != PPS ==> next.confirmed == run.confirmed)
    {
      hide Attribute, AddPaid, DB.Abs;
      workers, matured, orphaned, deleteRounds := workers0, matured0, orphaned0, deleteRounds0;
      if c.Transient? {
        return;
      }
      if c.category == OrphanTx || c.category == Kicked {
        orphaned, deleteRounds := orphaned + [pb], deleteRounds + [pb.height];
      } else if c.confirmations < cfg.minConfirmations {
        // left pending until it has enough confirmations
      } else if cfg.mode == PPS {
        matured, deleteRounds := matured + [pb], deleteRounds + [pb.height];
      } else {
        var rewardSat := CoinToSat(c.reward, cfg.magnitude);
        var dist := AttributeReward(pb, rewardSat);
        if |dist| == 0 {
          assert dist == map[];
          orphaned, deleteRounds := orphaned + [pb], deleteRounds + [pb.height];
        } else {
          workers := AddRewards(workers, dist, run);
          matured := matured + [pb];
        }
      }
    }

    /** processPayments: one payout cycle over whatever the keys hold; on clean keys a path of
        the protocol from an idle payer back to an idle payer. */
    method ProcessPayments(wallet: Wallet, ghost s: Sys) returns (ghost steps: seq<Step>, ghost t: Sys)
      requires cfg.magnitude > 0.0
      requires db.Valid() ==> s.store == db.Abs() && s.payer.Idle?
      requires db.Valid() && (db.intent.Intent? ==> db.intent.txid != "") && !db.intent.Torn? ==> s.net == Quiet
      modifies this`validAddr, db
      ensures Processed(cfg, db.codec, old(db.AllKeys()), db.AllKeys(), wallet, poolAddress, old(validAddr))
      ensures old(db.Valid()) ==>
                && db.Valid() && Leads(cfg, s, steps, t)
                && t.payer.Idle? && t.store == db.Abs() && t.writer == s.writer
    {
      hide Leads, KeysRanOn, CommitKeys, DB.Abs, Clean;
      ghost var valid := db.Valid();
      var ok;
      ok, steps, t := Reconcile(s);
      if ok {
        ghost var more, end;
        if cfg.mode == PPS {
          more, end := ProcessPPS(wallet, t, valid);
        } else {
          more, end := ProcessBlocks(wallet, t, valid);
        }
        if valid { steps, t := TakeMore(cfg, s, steps, t, more, end); }
      }
    }

    /** prop, pplns and solo: split the rewards of the matured blocks and settle. */
    method ProcessBlocks(wallet: Wallet, ghost s: Sys, ghost valid: bool) returns (ghost steps: seq<Step>, ghost t: Sys)
      requires cfg.magnitude > 0.0 && cfg.mode != PPS
      requires valid ==> db.Valid() && s.store == db.Abs() && s.payer == Ready && s.net == Quiet
      modifies this`validAddr, db
      ensures KeysRanOn(cfg, db.codec, old(db.AllKeys()), db.AllKeys(), wallet, poolAddress, old(validAddr))
      ensures valid ==>
                && db.Valid() && Leads(cfg, s, steps, t)
                && t.payer.Idle? && t.store == db.Abs() && t.writer == s.writer
    {
      hide Leads, Matches, Workers, BlocksSettled, Scanned, LogText.Entries, BlocksOf, Clean, CommitKeys;
      steps, t := [], s;
      var listed, members := db.GetAllPendingBlocks();
      if listed == None {
        return;
      }
      var list := listed.value;
      if valid { steps, t := TakeList(cfg, s, list); }
      if list == [] {
        return;
      }
      var workers := SeedWorkers(db.balances);
      ghost var seed := NO_RUN.(balances := db.balances);
      ghost var start := INIT.(store := db.Abs(), payer := Scan(seed, list));
      if valid {
        steps, t := TakeSeed(cfg, s, steps, t);
        start := t;
      }
      var matured, orphaned, deleteRounds;
      ghost var run, more, end, last;
      workers, matured, orphaned, deleteRounds, run, more, end := ScanBlocks(list, workers, wallet, seed, start);
      if valid { steps, t := TakeMore(cfg, s, steps, t, more, end); }
      more, last := SettleBlocks(workers, matured, orphaned, deleteRounds, wallet, run, end);
      if valid { steps, t := TakeMore(cfg, s, steps, t, more, last); }
    }

    /** The end of a prop, pplns or solo run. */
    method SettleBlocks(workers: map<Miner, Worker>, matured: seq<Block>, orphaned: seq<Block>, deleteRounds: seq<nat>,
                        wallet: Wallet, ghost run: Run, ghost s: Sys)
      returns (ghost steps: seq<Step>, ghost t: Sys)
      requires cfg.magnitude > 0.0 && cfg.mode != PPS
      requires s.store == db.Abs() && s.payer == Scan(run, []) && s.net == Quiet
      requires Matches(workers, run) && matured == AwardBlocks(run.awards) && run.confirmed == []
      requires orphaned == run.orphaned && deleteRounds == run.deleteRounds && run.hi == 0
      modifies this`validAddr, db
      ensures db.AllKeys() == CarriedKeys(old(db.AllKeys()), BlocksSettled(cfg, run, wallet, old(validAddr)))
      ensures old(db.Valid()) ==>
                && db.Valid() && Leads(cfg, s, steps, t)
                && t.payer.Idle? && t.store == db.Abs() && t.writer == s.writer
    {
      hide Leads, Commit, Settled, CommitKeys, Clean, StoreOf, Matches, Lists, Finished, AwardBlocks;
      ghost var valid := db.Valid();
      steps, t := TakeFinish(cfg, s);
      if |matured| == 0 {
        NoAwards(run);
        if |orphaned| == 0 {
          return;
        }
        MoveOrphans(orphaned, deleteRounds);
        if valid { steps, t := TakeApply(cfg, s, steps, t); }
        return;
      }
      NoAwards(run);
      var heights := HeightsOf(matured);
      var update := Update(map[], map[], matured, orphaned, deleteRounds + heights, 0);
      FinishedUpdate(workers, run);
      steps, t := SettleAndApply(workers, update, wallet, t.payer.run, s, steps, t);
    }

    method MoveOrphans(orphaned: seq<Block>, deleteRounds: seq<nat>)
      modifies db
      ensures
        var u := Update(map[], map[], [], orphaned, deleteRounds, 0);
        && db.AllKeys() == CommitKeys(old(db.AllKeys()), u)
        && (old(db.Valid()) ==> db.Valid() && db.Abs() == Commit(old(db.Abs()), u))
    {
      hide Commit, CommitKeys, Clean, StoreOf;
      var update := Update(map[], map[], [], orphaned, deleteRounds, 0);
      db.ApplyPayments(update);
    }

    /** settle, then ApplyPayments when it succeeded. */
    method SettleAndApply(workers: map<Miner, Worker>, update: Update, wallet: Wallet, ghost run: Run, ghost s: Sys,
                          ghost steps0: seq<Step>, ghost t0: Sys)
      returns (ghost steps: seq<Step>, ghost t: Sys)
      requires cfg.magnitude > 0.0 && Leads(cfg, s, steps0, t0)
      requires t0.store == db.Abs() && t0.payer == Planning(run, 0) && t0.net == Quiet
      requires Matches(workers, run) && Lists(update, run)
      modifies this`validAddr, db
      ensures db.AllKeys() == CarriedKeys(old(db.AllKeys()), Settled(cfg, run, wallet, old(validAddr)))
      ensures old(db.Valid()) ==>
                && db.Valid() && Leads(cfg, s, steps, t)
                && t.payer.Idle? && t.store == db.Abs() && t.writer == t0.writer
    {
      hide Leads, Commit, MakeUpdate, Matches, Lists, Withhold, SettleFrom, PayableIn, CommitKeys, Clean, StoreOf;
      ghost var valid := db.Valid();
      WithholdTable();
      var ok, filled, attempts;
      ghost var more, end;
      ok, filled, attempts, more, end := Settle(workers, update, 0.0, wallet, run, 0, t0);
      steps, t := TakeMore(cfg, s, steps0, t0, more, end);
      assert db.AllKeys() == old(db.AllKeys()).(intent := db.intent);
      if ok {
        CommitDropsIntent(old(db.AllKeys()), db.intent, filled);
        db.ApplyPayments(filled);
        if valid { steps, t := TakeApply(cfg, s, steps, t); }
      }
    }

    /** The rounds of the matured blocks. */
    method HeightsOf(blocks: seq<Block>) returns (heights: seq<nat>)
      ensures heights == Heights(blocks)
    {
      heights := [];
      for i := 0 to |blocks|
        invariant heights == Heights(blocks[..i])
      {
        heights := heights + [blocks[i].height];
      }
      assert blocks[..|blocks|] == blocks;
    }

    /** pps: pay every share logged since the cursor, and confirm matured blocks. */
    method ProcessPPS(wallet: Wallet, ghost s: Sys, ghost valid: bool) returns (ghost steps: seq<Step>, ghost t: Sys)
      requires cfg.magnitude > 0.0 && cfg.mode == PPS
      requires valid ==> db.Valid() && s.store == db.Abs() && s.payer == Ready && s.net == Quiet
      modifies this`validAddr, db
      ensures KeysRanOn(cfg, db.codec, old(db.AllKeys()), db.AllKeys(), wallet, poolAddress, old(validAddr))
      ensures valid ==>
                && db.Valid() && Leads(cfg, s, steps, t)
                && t.payer.Idle? && t.store == db.Abs() && t.writer == s.writer
    {
      hide Leads, Matches, Workers, Totals, After, MaxSeq, Settled, Scanned, PpsRewards, LogText.Entries;
      hide BlocksOf, Clean, CommitKeys;
      steps, t := [], s;
      var since := db.cursor;
      var newShares, maxSeq := db.GetSharesSince(since);
      var workers := SeedWorkers(db.balances);
      var rewards := RewardsOf(newShares);
      ghost var seed := NO_RUN.(balances := db.balances);
      workers := AddRewards(workers, rewards, seed);
      AddPaidNothing(rewards);
      ghost var run0 := PpsRun(cfg, db.Abs());
      MatchesAmounts(workers, seed.(rewards := rewards), run0);
      var listed, members := db.GetAllPendingBlocks();
      if listed == None {
        return;
      }
      var list := listed.value;
      ghost var start := INIT.(store := db.Abs(), payer := Scan(run0, list));
      if valid {
        steps, t := TakeReads(cfg, s);
        steps, t := TakeListPps(cfg, s, steps, t, list);
        start := t;
      }
      var matured, orphaned, deleteRounds;
      ghost var run, more, end, last;
      workers, matured, orphaned, deleteRounds, run, more, end := ScanBlocks(list, workers, wallet, run0, start);
      if valid { steps, t := TakeMore(cfg, s, steps, t, more, end); }
      var update := Update(map[], map[], matured, orphaned, deleteRounds, maxSeq);
      more, last := TakeFinish(cfg, end);
      EmptyLists(update, run);
      more, last := SettleAndApply(workers, update, wallet, run, end, more, last);
      if valid { steps, t := TakeMore(cfg, s, steps, t, more, last); }
    }

    /** pps: reward per miner for its difficulty. */
    method RewardsOf(work: map<Miner, real>) returns (rewards: map<Miner, nat>)
      requires cfg.magnitude > 0.0
      ensures rewards == PpsRewards(cfg, work)
    {
      hide PpsReward;
      rewards := map[];
      var todo := work.Keys;
      while todo != {}
        invariant todo <= work.Keys && rewards.Keys == work.Keys - todo
        invariant forall m | m in rewards :: rewards[m] == PpsReward(cfg, work[m])
        decreases |todo|
      {
        var m :| m in todo;
        rewards := rewards[m := PpsReward(cfg, work[m])];
        todo := todo - {m};
      }
    }
  }

  lemma SumOne(shares: map<Miner, real>, todo: set<Miner>, m: Miner)
    requires m in todo && todo <= shares.Keys
    ensures SumOverReal(shares.Keys - (todo - {m}), shares) == SumOverReal(shares.Keys - todo, shares) + shares[m]
  {
    SumOverRealPick(shares.Keys - (todo - {m}), shares, m);
    assert shares.Keys - (todo - {m}) - {m} == shares.Keys - todo;
  }

  /** splitByShares: sum the shares, then give each miner its rounded-down part. */
  method Split(reward: nat, shares: map<Miner, real>) returns (out: map<Miner, nat>)
    ensures out == SplitByShares(reward, shares)
  {
    hide Part, SumOverReal;
    var total := 0.0;
    var todo := shares.Keys;
    NothingSummed(shares);
    while todo != {}
      invariant todo <= shares.Keys
      invariant total == SumOverReal(shares.Keys - todo, shares)
      decreases |todo|
    {
      var m :| m in todo;
      SumOne(shares, todo, m);
      total := total + shares[m];
      todo := todo - {m};
    }
    assert shares.Keys - {} == shares.Keys;
    if total <= 0.0 {
      return map[];
    }
    out := Parts(reward, shares, total);
  }

  lemma NothingSummed(shares: map<Miner, real>)
    ensures SumOverReal(shares.Keys - shares.Keys, shares) == 0.0
  {
  }

  method Parts(reward: nat, shares: map<Miner, real>, total: real) returns (out: map<Miner, nat>)
    requires total > 0.0
    ensures out == map m | m in shares :: Part(reward, shares[m], total)
  {
    hide Part;
    out := map[];
    var todo := shares.Keys;
    while todo != {}
      invariant todo <= shares.Keys && out.Keys == shares.Keys - todo
      invariant forall m | m in out :: out[m] == Part(reward, shares[m], total)
      decreases |todo|
    {
      var m :| m in todo;
      out := out[m := Part(reward, shares[m], total)];
      todo := todo - {m};
    }
  }

  /** Every worker with its part of a distribution added. */
  function AllRewarded(workers: map<Miner, Worker>, dist: map<Miner, nat>): map<Miner, Worker> {
    map m | m in workers.Keys + dist.Keys :: RewardOf(workers, m, Get(dist, m))
  }

  lemma RewardNothing(workers: map<Miner, Worker>, dist: map<Miner, nat>)
    ensures AllRewarded(workers, dist - dist.Keys) == workers
  {
  }

  lemma RewardOne(workers: map<Miner, Worker>, dist: map<Miner, nat>, todo: set<Miner>, m: Miner)
    requires m in todo && todo <= dist.Keys
    ensures
      var so := AllRewarded(workers, dist - todo);
      so[m := RewardOf(so, m, dist[m])] == AllRewarded(workers, dist - (todo - {m}))
  {
  }

  /** The worker of a miner, created when missing, with its reward raised. */
  function RewardOf(workers: map<Miner, Worker>, m: Miner, r: nat): Worker {
    var w := if m in workers then workers[m] else Worker(m, 0, 0, 0);
    w.(reward := w.reward + r)
  }

  lemma AllRewardedMatch(workers: map<Miner, Worker>, dist: map<Miner, nat>, run: Run)
    requires Matches(workers, run)
    ensures Matches(AllRewarded(workers, dist), run.(rewards := AddPaid(run.rewards, dist)))
  {
  }

  /** `w.Reward += r` for every miner of a distribution, creating missing workers. */
  method AddRewards(workers0: map<Miner, Worker>, dist: map<Miner, nat>, ghost run: Run)
    returns (workers: map<Miner, Worker>)
    requires Matches(workers0, run)
    ensures Matches(workers, run.(rewards := AddPaid(run.rewards, dist)))
  {
    hide *;
    workers := workers0;
    RewardNothing(workers0, dist);
    var todo := dist.Keys;
    while todo != {}
      invariant todo <= dist.Keys && workers == AllRewarded(workers0, dist - todo)
      decreases |todo|
    {
      var m :| m in todo;
      RewardOne(workers0, dist, todo, m);
      workers := workers[m := RewardOf(workers, m, dist[m])];
      todo := todo - {m};
    }
    assert dist - {} == dist;
    AllRewardedMatch(workers0, dist, run);
  }

  lemma AddPaidNothing(paid: map<Miner, nat>)
    ensures AddPaid(map[], paid) == paid
  {
  }

  lemma MatchesAmounts(workers: map<Miner, Worker>, a: Run, b: Run)
    requires Matches(workers, a) && a.balances == b.balances && a.rewards == b.rewards
    ensures Matches(workers, b)
  {
  }

  lemma NoAwards(run: Run)
    ensures |AwardBlocks(run.awards)| == 0 <==> run.awards == []
  {
  }

  /** The update that a finished run starts settling with. */
  lemma FinishedUpdate(workers: map<Miner, Worker>, run: Run)
    requires Matches(workers, run) && run.confirmed == [] && run.hi == 0
    ensures Matches(workers, Finished(run))
    ensures
      var matured := AwardBlocks(run.awards);
      Lists(Update(map[], map[], matured, run.orphaned, run.deleteRounds + Heights(matured), 0), Finished(run))
  {
    assert [] + AwardBlocks(run.awards) == AwardBlocks(run.awards);
  }

  lemma EmptyLists(u: Update, run: Run)
    requires u == Update(map[], map[], run.confirmed, run.orphaned, run.deleteRounds, run.hi)
    ensures Lists(u, run)
  {
  }

  /** How the k-th attempt ends. */
  function EndOf(update: Update, wallet: Wallet, k: nat): SendEnd {
    if update.paid == map[] then Paid
    else
      match wallet.sendmany(k)
      case None => Failed
      case Some(Txid(_)) => Paid
      case Some(Refused) => Failed
      case Some(Short) => if k < 7 then TryAgain(Withhold(k + 1)) else Failed
  }

  /** The intent that an attempt which sent something leaves. */
  function IntentAfter(update: Update, wallet: Wallet, k: nat): IntentKey {
    match wallet.sendmany(k)
    case None => Intent(update, "")
    case Some(Txid(id)) => Intent(update, id)
    case Some(Refused) => NoIntent
    case Some(Short) => if k < 7 then Intent(update, "") else NoIntent
  }

  /** An attempt that is not to be repeated settles the run. */
  lemma AttemptAnswered(cfg: Config, run: Run, wallet: Wallet, payable: set<Miner>, k: nat, end: SendEnd,
                        update: Update, intent: IntentKey)
    requires k <= 7 && update == MakeUpdate(cfg, run, k, payable) && end == EndOf(update, wallet, k)
    requires update.paid != map[] ==> intent == IntentAfter(update, wallet, k)
    ensures !end.TryAgain? ==> SettledAs(cfg, run, wallet, payable, k, end.Paid?, update, intent)
    ensures end.TryAgain? ==>
            k < 7 && update.paid != map[] && wallet.sendmany(k) == Some(Short) && end.next == Withhold(k + 1)
  {
    hide MakeUpdate, Withhold;
  }

  lemma RetryAnswered(cfg: Config, run: Run, wallet: Wallet, payable: set<Miner>, k: nat, ok: bool, update: Update,
                      intent: IntentKey)
    requires k < 7 && MakeUpdate(cfg, run, k, payable).paid != map[] && wallet.sendmany(k) == Some(Short)
    requires SettledAs(cfg, run, wallet, payable, k + 1, ok, update, intent)
    ensures SettledAs(cfg, run, wallet, payable, k, ok, update, intent)
  {
    hide MakeUpdate;
  }

  /** The result of settling from the k-th attempt on, and the intent it leaves. */
  predicate SettledAs(cfg: Config, run: Run, wallet: Wallet, payable: set<Miner>, k: nat, ok: bool, update: Update,
                      intent: IntentKey)
    requires k <= 7
  {
    match SettleFrom(cfg, run, wallet, payable, k)
    case Done(j) => ok && update == MakeUpdate(cfg, run, j, payable)
    case Unanswered(j) => !ok && intent == Intent(MakeUpdate(cfg, run, j, payable), "")
    case GaveUp => !ok && intent == NoIntent
  }

  lemma SamePayable(a: map<Miner, bool>, b: map<Miner, bool>, wallet: Wallet, run: Run)
    requires forall m :: CanPay(a, wallet, m) == CanPay(b, wallet, m)
    ensures PayableIn(a, wallet, run) == PayableIn(b, wallet, run)
  {
  }

  lemma AttemptOf(k: nat)
    requires k <= 7
    ensures AttemptIndex(Withhold(k)) == k
  {
    WithholdTable();
  }

  lemma CommitDropsIntent(k: Keys, key: IntentKey, u: Update)
    ensures CommitKeys(k.(intent := key), u) == CommitKeys(k, u)
  {
    hide AddPaid, LogText.AboveScore, Texts;
  }

  lemma StoreIntent(codec: LogText.Codec, k: Keys)
    ensures StoreOf(codec, k).intent == k.intent
  {
    hide LogText.Entries, BlocksOf;
  }

  /** Which sendmany attempt a withheld fraction belongs to. */
  function AttemptIndex(withhold: real): nat {
    if withhold < 0.01 then 0
    else if withhold < 0.02 then 1
    else if withhold < 0.04 then 2
    else if withhold < 0.08 then 3
    else if withhold < 0.16 then 4
    else if withhold < 0.32 then 5
    else if withhold < 0.64 then 6
    else 7
  }

  lemma NextWithhold(k: nat)
    ensures Withhold(k + 1) == if Withhold(k) * 2.0 < 0.01 then 0.01 else Withhold(k) * 2.0
  {
  }

  lemma WithholdTable()
    ensures Withhold(0) == 0.0 && Withhold(1) == 0.01 && Withhold(2) == 0.02 && Withhold(3) == 0.04
    ensures Withhold(4) == 0.08 && Withhold(5) == 0.16 && Withhold(6) == 0.32 && Withhold(7) == 0.64
    ensures Withhold(8) == 1.28
  {
    NextWithhold(0); NextWithhold(1); NextWithhold(2); NextWithhold(3);
    NextWithhold(4); NextWithhold(5); NextWithhold(6); NextWithhold(7);
  }

  lemma {:induction false} WithholdGrows(j: nat, k: nat)
    requires j <= k
    ensures Withhold(j) <= Withhold(k)
    decreases k - j
  {
    if j < k {
      WithholdGrows(j, k - 1);
      NextWithhold(k - 1);
      WithholdNonNegative(k - 1);
    }
  }

  /** Doubling from 1% stops before the ninth attempt. */
  lemma AtMostEightAttempts(k: nat)
    ensures Withhold(k) < 1.0 <==> k <= 7
  {
    WithholdTable();
    if k <= 7 { WithholdGrows(k, 7); } else { WithholdGrows(8, k); }
  }

  lemma FloorSatMonotone(x: real, y: real)
    requires x <= y
    ensures FloorSat(x) <= FloorSat(y)
  {
  }

  lemma KeptPart(owed: real, a: real, b: real)
    requires owed >= 0.0 && a <= b
    ensures owed * (1.0 - b) <= owed * (1.0 - a)
  {
    assert owed * (b - a) >= 0.0;
  }

  lemma ToSendShrinks(owed: nat, a: real, b: real)
    requires a <= b
    ensures ToSend(owed, b) <= ToSend(owed, a)
  {
    KeptPart(owed as real, a, b);
    FloorSatMonotone(owed as real * (1.0 - b), owed as real * (1.0 - a));
  }

  /** Withholding more never sends a worker more. */
  lemma SentShrinks(cfg: Config, run: Run, j: nat, k: nat, payable: set<Miner>, m: Miner)
    requires j <= k
    ensures Sent(cfg, run, k, payable, m) <= Sent(cfg, run, j, payable, m)
  {
    hide Withhold, ToSend, Sent;
    WithholdGrows(j, k);
    SentIs(cfg, run, j, payable, m, ToSend(Owed(run, m), Withhold(j)));
    SentIs(cfg, run, k, payable, m, ToSend(Owed(run, m), Withhold(k)));
    ToSendShrinks(Owed(run, m), Withhold(j), Withhold(k));
  }

  // ------------------------------------------------------------------
  // The calls of settle as steps
  // ------------------------------------------------------------------

  lemma TakePlan(cfg: Config, s: Sys, payable: set<Miner>) returns (steps: seq<Step>, t: Sys)
    requires cfg.magnitude > 0.0 && s.payer.Planning?
    ensures Leads(cfg, s, steps, t)
    ensures
      var u := MakeUpdate(cfg, s.payer.run, s.payer.attempt, payable);
      t == if u.paid == map[] then s.(payer := Committing(u), plan := s.payer.run)
           else s.(store := s.store.(intent := Intent(u, "")), payer := Persisted(s.payer.run, u, s.payer.attempt),
               plan := s.payer.run)
  {
    hide MakeUpdate;
    steps, t := Take(cfg, s, [], s, Plan(payable));
  }

  lemma TakeMore(cfg: Config, s: Sys, steps0: seq<Step>, t0: Sys, more: seq<Step>, t1: Sys)
    returns (steps: seq<Step>, t: Sys)
    requires cfg.magnitude > 0.0 && Leads(cfg, s, steps0, t0) && Leads(cfg, t0, more, t1)
    ensures Leads(cfg, s, steps, t) && t == t1
  {
    RunConcat(cfg, s, steps0, more);
    steps, t := steps0 + more, t1;
  }

  lemma TakeSend(cfg: Config, s: Sys) returns (steps: seq<Step>, t: Sys)
    requires cfg.magnitude > 0.0 && s.payer.Persisted?
    ensures Leads(cfg, s, steps, t)
    ensures t == s.(payer := Awaiting(s.payer.run, s.payer.u, s.payer.attempt), net := Request(s.payer.u.paid))
  {
    steps, t := Take(cfg, s, [], s, Send);
  }

  /** No answer came: the request may have been accepted or not. */
  lemma SentNoAnswer(cfg: Config, s: Sys) returns (steps: seq<Step>, t: Sys)
    requires cfg.magnitude > 0.0 && s.payer.Persisted?
    ensures Leads(cfg, s, steps, t) && t.store == s.store && t.writer == s.writer && t.payer == Idle
  {
    hide Leads;
    steps, t := TakeSend(cfg, s);
    steps, t := TakeAbort(cfg, s, steps, t);
  }

  lemma SentAndStamped(cfg: Config, s: Sys, id: string) returns (steps: seq<Step>, t: Sys)
    requires cfg.magnitude > 0.0 && s.payer.Persisted?
    ensures Leads(cfg, s, steps, t) && t.writer == s.writer && t.net == Quiet
    ensures t.store == s.store.(intent := StampTxid(s.store.intent, id)) && t.payer == Committing(s.payer.u)
  {
    hide Leads, StampTxid;
    steps, t := TakeSend(cfg, s);
    steps, t := TakeReply(cfg, s, steps, t, Txid(id));
    steps, t := TakeStamp(cfg, s, steps, t);
  }

  lemma SentAndCleared(cfg: Config, s: Sys, reply: Reply) returns (steps: seq<Step>, t: Sys)
    requires cfg.magnitude > 0.0 && s.payer.Persisted?
    requires reply == Refused || (reply == Short && Withhold(s.payer.attempt + 1) >= 1.0)
    ensures Leads(cfg, s, steps, t) && t.writer == s.writer
    ensures t.store == s.store.(intent := NoIntent) && t.payer == Idle
  {
    hide Leads, Withhold;
    steps, t := TakeSend(cfg, s);
    steps, t := TakeReply(cfg, s, steps, t, reply);
    steps, t := TakeClear(cfg, s, steps, t);
  }

  lemma SentTooMuch(cfg: Config, s: Sys) returns (steps: seq<Step>, t: Sys)
    requires cfg.magnitude > 0.0 && s.payer.Persisted? && Withhold(s.payer.attempt + 1) < 1.0
    ensures Leads(cfg, s, steps, t) && t.store == s.store && t.writer == s.writer && t.net == Quiet
    ensures t.payer == Planning(s.payer.run, s.payer.attempt + 1)
  {
    hide Leads, Withhold;
    steps, t := TakeSend(cfg, s);
    steps, t := TakeReply(cfg, s, steps, t, Short);
  }

  lemma LeadsNowhere(cfg: Config, s: Sys)
    requires cfg.magnitude > 0.0
    ensures Leads(cfg, s, [], s)
  {
  }

  lemma TakeReconcile(cfg: Config, s: Sys) returns (steps: seq<Step>, t: Sys)
    requires cfg.magnitude > 0.0 && s.payer.Idle?
    ensures Leads(cfg, s, steps, t)
    ensures t == s.(payer := match s.store.intent
                      case NoIntent => Ready
                      case Intent(u, txid) => if txid != "" then Resume(u) else Idle
                      case Torn(_) => Idle)
  {
    steps, t := Take(cfg, s, [], s, Protocol.Step.Reconcile);
  }

  lemma TakeApply(cfg: Config, s: Sys, steps0: seq<Step>, t0: Sys) returns (steps: seq<Step>, t: Sys)
    requires cfg.magnitude > 0.0 && Leads(cfg, s, steps0, t0) && (t0.payer.Committing? || t0.payer.Resume?)
    ensures Leads(cfg, s, steps, t)
    ensures t.store == Commit(t0.store, t0.payer.u) && t.net == t0.net && t.writer == t0.writer
    ensures t.payer == if t0.payer.Resume? then Ready else Idle
  {
    hide Commit;
    steps, t := Take(cfg, s, steps0, t0, if t0.payer.Resume? then ResumeApply else Apply);
  }

  lemma TakeList(cfg: Config, s: Sys, list: seq<Block>) returns (steps: seq<Step>, t: Sys)
    requires cfg.magnitude > 0.0 && s.payer == Ready && cfg.mode != PPS && Listing(s.store, list)
    ensures Leads(cfg, s, steps, t)
    ensures t == s.(payer := if list == [] then Idle else Listed(list))
  {
    hide Listing;
    steps, t := Take(cfg, s, [], s, ListPending(list));
  }

  lemma TakeSeed(cfg: Config, s: Sys, steps0: seq<Step>, t0: Sys) returns (steps: seq<Step>, t: Sys)
    requires cfg.magnitude > 0.0 && Leads(cfg, s, steps0, t0) && t0.payer.Listed?
    ensures Leads(cfg, s, steps, t)
    ensures t == t0.(payer := Scan(NO_RUN.(balances := t0.store.balances), t0.payer.todo))
  {
    steps, t := Take(cfg, s, steps0, t0, SeedBalances);
  }

  /** pps: cursor, shares and balances are read. */
  lemma TakeReads(cfg: Config, s: Sys) returns (steps: seq<Step>, t: Sys)
    requires cfg.magnitude > 0.0 && s.payer == Ready && cfg.mode == PPS
    ensures Leads(cfg, s, steps, t)
    ensures
      var lo := s.store.cursor;
      var newer := After(s.store.log, lo);
      t == s.(payer := Seeded(NO_RUN.(balances := s.store.balances, rewards := PpsRewards(cfg, Totals(newer)),
                                     lo := lo, hi := MaxSeq(newer, lo), work := Totals(newer))))
  {
    hide After, Totals, MaxSeq, PpsRewards;
    steps, t := Take(cfg, s, [], s, ReadCursor);
    steps, t := Take(cfg, s, steps, t, ReadShares);
    steps, t := Take(cfg, s, steps, t, SeedBalances);
  }

  lemma TakeListPps(cfg: Config, s: Sys, steps0: seq<Step>, t0: Sys, list: seq<Block>)
    returns (steps: seq<Step>, t: Sys)
    requires cfg.magnitude > 0.0 && Leads(cfg, s, steps0, t0) && t0.payer.Seeded? && Listing(t0.store, list)
    ensures Leads(cfg, s, steps, t) && t == t0.(payer := Scan(t0.payer.run, list))
  {
    hide Listing;
    steps, t := Take(cfg, s, steps0, t0, ListPending(list));
  }

  lemma TakeClassify(cfg: Config, s: Sys, steps0: seq<Step>, t0: Sys, o: Outcome) returns (steps: seq<Step>, t: Sys)
    requires cfg.magnitude > 0.0 && Leads(cfg, s, steps0, t0) && t0.payer.Scan? && t0.payer.todo != []
    ensures Leads(cfg, s, steps, t)
    ensures t == t0.(payer := Scan(Classified(cfg, t0.store, t0.payer.run, t0.payer.todo[0], o), t0.payer.todo[1..]))
  {
    hide Classified;
    steps, t := Take(cfg, s, steps0, t0, Classify(o));
  }

  lemma TakeFinish(cfg: Config, s: Sys) returns (steps: seq<Step>, t: Sys)
    requires cfg.magnitude > 0.0 && s.payer.Scan? && s.payer.todo == []
    ensures Leads(cfg, s, steps, t)
    ensures
      var run := s.payer.run;
      t == if cfg.mode == PPS then s.(payer := Planning(run, 0))
           else if run.awards != [] then s.(payer := Planning(Finished(run), 0))
           else if run.orphaned == [] then s.(payer := Idle)
           else s.(payer := Committing(OrphanUpdate(run)), plan := run)
  {
    hide Finished, OrphanUpdate;
    steps, t := Take(cfg, s, [], s, FinishScan);
  }

  lemma TakeAbort(cfg: Config, s: Sys, steps0: seq<Step>, t0: Sys) returns (steps: seq<Step>, t: Sys)
    requires cfg.magnitude > 0.0 && Leads(cfg, s, steps0, t0)
    ensures Leads(cfg, s, steps, t) && t == t0.(payer := Idle)
  {
    steps, t := Take(cfg, s, steps0, t0, Abort);
  }

  /** The wallet answers and the payer receives it. */
  lemma TakeReply(cfg: Config, s: Sys, steps0: seq<Step>, t0: Sys, reply: Reply) returns (steps: seq<Step>, t: Sys)
    requires cfg.magnitude > 0.0 && Leads(cfg, s, steps0, t0) && t0.payer.Awaiting? && t0.net.Request?
    ensures Leads(cfg, s, steps, t)
    ensures t == t0.(net := Quiet, payer := t.payer, sent := t.sent, wallet := t.wallet)
    ensures t.payer == match reply
      case Txid(id) => Stamping(t0.payer.u, id)
      case Short => if Withhold(t0.payer.attempt + 1) >= 1.0 then Clearing
          else Planning(t0.payer.run, t0.payer.attempt + 1)
      case Refused => Clearing
  {
    hide Withhold;
    var a := match reply
      case Txid(id) => WalletAccept(id)
      case Short => WalletRefuse(true)
      case Refused => WalletRefuse(false);
    steps, t := Take(cfg, s, steps0, t0, a);
    steps, t := Take(cfg, s, steps, t, Receive);
  }

  lemma TakeStamp(cfg: Config, s: Sys, steps0: seq<Step>, t0: Sys) returns (steps: seq<Step>, t: Sys)
    requires cfg.magnitude > 0.0 && Leads(cfg, s, steps0, t0) && t0.payer.Stamping?
    ensures Leads(cfg, s, steps, t)
    ensures t == t0.(store := t0.store.(intent := StampTxid(t0.store.intent, t0.payer.txid)),
            payer := Committing(t0.payer.u))
  {
    steps, t := Take(cfg, s, steps0, t0, Stamp);
  }

  lemma TakeClear(cfg: Config, s: Sys, steps0: seq<Step>, t0: Sys) returns (steps: seq<Step>, t: Sys)
    requires cfg.magnitude > 0.0 && Leads(cfg, s, steps0, t0) && t0.payer.Clearing?
    ensures Leads(cfg, s, steps, t)
    ensures t == t0.(store := t0.store.(intent := NoIntent), payer := Idle)
  {
    steps, t := Take(cfg, s, steps0, t0, Clear);
  }

  /** The worker loop's arithmetic is the protocol's. */
  lemma SentIs(cfg: Config, run: Run, k: nat, payable: set<Miner>, m: Miner, toSend: nat)
    requires toSend == ToSend(Owed(run, m), Withhold(k))
    ensures Sent(cfg, run, k, payable, m)
            == if toSend >= cfg.minPayment && toSend > 0 && m in payable then toSend else 0
  {
    hide ToSend, Withhold;
  }

  lemma WorkersOf(workers: map<Miner, Worker>, run: Run)
    requires Matches(workers, run)
    ensures workers.Keys == Workers(run)
  {
  }

  lemma WorkerOwes(workers: map<Miner, Worker>, run: Run, m: Miner)
    requires Matches(workers, run) && m in workers
    ensures workers[m].address == m && workers[m].balance + workers[m].reward == Owed(run, m)
  {
  }

  lemma SetSent(workers: map<Miner, Worker>, run: Run, m: Miner, n: nat)
    requires Matches(workers, run) && m in workers
    ensures Matches(workers[m := workers[m].(sent := n)], run)
  {
  }

  lemma FilledLists(u: Update, run: Run)
    requires Lists(u, run)
    ensures u.confirmed == run.confirmed && u.orphaned == run.orphaned
    ensures u.deleteRounds == run.deleteRounds && u.cursor == run.hi
    ensures u.balances.Keys <= Workers(run) && u.paid.Keys <= Workers(run)
  {
  }

  lemma UpdateKeys(cfg: Config, run: Run, k: nat, payable: set<Miner>)
    ensures
      var u := MakeUpdate(cfg, run, k, payable);
      && u.balances.Keys == Workers(run) && u.paid.Keys <= Workers(run)
      && u.confirmed == run.confirmed && u.orphaned == run.orphaned
      && u.deleteRounds == run.deleteRounds && u.cursor == run.hi
  {
    hide Sent;
  }

  lemma UpdateLists(cfg: Config, run: Run, k: nat, payable: set<Miner>)
    ensures Lists(MakeUpdate(cfg, run, k, payable), run)
  {
    hide MakeUpdate;
    UpdateKeys(cfg, run, k, payable);
  }

  lemma UpdateAt(cfg: Config, run: Run, k: nat, payable: set<Miner>, m: Miner)
    requires m in Workers(run)
    ensures
      var u, sent := MakeUpdate(cfg, run, k, payable), Sent(cfg, run, k, payable, m);
      && m in u.balances && sent <= Owed(run, m) && u.balances[m] == Owed(run, m) - sent
      && (if sent > 0 then m in u.paid && u.paid[m] == sent else m !in u.paid)
  {
    hide SentTo, Withhold;
    var n := Sent(cfg, run, k, payable, m);
  }
}
