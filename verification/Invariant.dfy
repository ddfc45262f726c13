/** What every reachable state of the payout protocol satisfies, stated clause by clause
    over just the keys and histories that the clause concerns. */
module Invariant {
  import opened Prelude
  import opened Shares
  import opened Ledger
  import opened Protocol

  // ------------------------------------------------------------------
  // Sums over histories
  // ------------------------------------------------------------------

  /** What the given block rewards gave to a miner. */
  function AwardSum(awards: seq<Award>, m: Miner): int {
    if awards == [] then 0
    else AwardSum(awards[..|awards| - 1], m) + Get(awards[|awards| - 1].dist, m)
  }

  /** What the given pps ranges gave to a miner. */
  function CreditSum(cfg: Config, credits: seq<Range>, m: Miner): int
    requires cfg.magnitude > 0.0
  {
    if credits == [] then 0
    else CreditSum(cfg, credits[..|credits| - 1], m) + Get(PpsRewards(cfg, credits[|credits| - 1].work), m)
  }

  /** What the wallet has broadcast to a miner. */
  function WalletSum(wallet: seq<Broadcast>, m: Miner): int {
    if wallet == [] then 0
    else WalletSum(wallet[..|wallet| - 1], m) + Get(wallet[|wallet| - 1].paid, m)
  }

  lemma {:induction false} AwardSumConcat(a: seq<Award>, b: seq<Award>, m: Miner)
    ensures AwardSum(a + b, m) == AwardSum(a, m) + AwardSum(b, m)
    decreases |b|
  {
    if b == [] {
      assert a + b == a;
    } else {
      assert (a + b)[..|a + b| - 1] == a + b[..|b| - 1];
      AwardSumConcat(a, b[..|b| - 1], m);
    }
  }

  // ------------------------------------------------------------------
  // Shares and rounds
  // ------------------------------------------------------------------

  /** The score of the newest logged share, 0 before the first. */
  function Top(hist: seq<Entry>): nat {
    if hist == [] then 0 else hist[|hist| - 1].seqNo
  }

  /** The shares with lo < seqNo <= hi. */
  function Between(hist: seq<Entry>, lo: nat, hi: nat): seq<Entry> {
    UpTo(After(hist, lo), hi)
  }

  ghost predicate AllNonNegative(es: seq<Entry>) {
    forall e | e in es :: e.diff >= 0.0
  }

  /** The log is the newest part of a history. */
  predicate IsTail(log: seq<Entry>, hist: seq<Entry>) {
    |log| <= |hist| && log == hist[|hist| - |log|..]
  }

  /** The log is the history's newest part: all uncredited shares in pps mode, at least
      the cap newest shares otherwise. */
  ghost predicate LogInv(cfg: Config, log: seq<Entry>, lastSeq: nat, cursor: nat, hist: seq<Entry>) {
    && Increasing(hist)
    && AllNonNegative(hist)
    && (forall e | e in hist :: 0 < e.seqNo <= lastSeq)
    && cursor <= Top(hist)
    && (if cfg.mode == PPS then log == After(hist, cursor)
        else
          && cursor == 0
          && IsTail(log, hist)
          && (|log| >= cfg.cap || log == hist))
  }

  /** Where the i-th seal starts. */
  function SealedBefore(seals: seq<Seal>, i: nat): nat
    requires i <= |seals|
  {
    if i == 0 then 0 else seals[i - 1].hi
  }

  /** Where the i-th pps range starts. */
  function CreditedBefore(credits: seq<Range>, i: nat): nat
    requires i <= |credits|
  {
    if i == 0 then 0 else credits[i - 1].hi
  }

  /** Seals cut the tally into consecutive non-empty rounds. */
  ghost predicate SealsOk(tally: seq<Entry>, seals: seq<Seal>) {
    && (forall i | 0 <= i < |seals| :: seals[i].lo < seals[i].hi <= |tally|)
    && (forall i | 0 <= i < |seals| :: seals[i].lo == SealedBefore(seals, i))
  }

  /** The shares of a sealed round. */
  function RoundShares(tally: seq<Entry>, seal: Seal): seq<Entry>
    requires seal.lo <= seal.hi <= |tally|
  {
    tally[seal.lo..seal.hi]
  }

  /** The i-th seal is the last one at its height. */
  ghost predicate LastSeal(seals: seq<Seal>, h: nat, i: nat) {
    i < |seals| && seals[i].height == h && forall j | i < j < |seals| :: seals[j].height != h
  }

  /** The round key of a height holds what the i-th seal renamed: no later seal renamed over
      it, and it has not been deleted since. */
  ghost predicate HoldsRound(seals: seq<Seal>, dropped: map<nat, nat>, h: nat, i: nat) {
    LastSeal(seals, h, i) && (h in dropped ==> dropped[h] <= i)
  }

  /** The round key of a height holds the per-miner sums of the i-th round. */
  ghost predicate RoundKeyOf(rounds: map<nat, map<Miner, real>>, tally: seq<Entry>, seals: seq<Seal>, h: nat, i: nat) {
    && i < |seals| && seals[i].lo <= seals[i].hi <= |tally|
    && h in rounds && rounds[h] == Totals(RoundShares(tally, seals[i]))
  }

  /** There are round keys for exactly the rounds that were neither renamed over nor deleted,
      and each holds the per-miner sums of its shares. */
  ghost predicate RoundInv(current: map<Miner, real>, rounds: map<nat, map<Miner, real>>, tally: seq<Entry>,
                           seals: seq<Seal>, dropped: map<nat, nat>) {
    && AllNonNegative(tally)
    && SealsOk(tally, seals)
    && OpenAt(seals) <= |tally|
    && current == Totals(tally[OpenAt(seals)..])
    && (forall h | h in dropped :: dropped[h] <= |seals|)
    && (forall h, i: nat | HoldsRound(seals, dropped, h, i) :: RoundKeyOf(rounds, tally, seals, h, i))
    && (forall h | h in rounds :: exists i: nat :: HoldsRound(seals, dropped, h, i))
  }

  /** The block's round ends with the share that solved it. */
  ghost predicate SolvedBy(tally: seq<Entry>, seals: seq<Seal>, b: Block) {
    exists i: nat :: SolvedAt(tally, seals, b, i)
  }

  predicate SolvedAt(tally: seq<Entry>, seals: seq<Seal>, b: Block, i: nat) {
    && i < |seals| && seals[i].height == b.height && 0 < seals[i].hi <= |tally|
    && tally[seals[i].hi - 1].miner == b.finder && tally[seals[i].hi - 1].seqNo == b.mark
  }

  /** Whatever was counted into a round had been logged before, and in the same order. */
  ghost predicate CountedInv(hist: seq<Entry>, tally: seq<Entry>) {
    Increasing(tally) && forall e | e in tally :: e in hist
  }

  // ------------------------------------------------------------------
  // Blocks
  // ------------------------------------------------------------------

  function Known(st: Store): set<Block> {
    st.pending + st.confirmed + st.orphaned
  }

  /** A block of this height has been settled. */
  ghost predicate SettledHeight(st: Store, h: nat) {
    exists b | b in st.confirmed + st.orphaned :: b.height == h
  }

  /** Each block found sits in exactly one of the three sets; marks tell blocks apart; rounds
      are deleted with blocks. */
  ghost predicate BlockInv(st: Store, tally: seq<Entry>, seals: seq<Seal>, dropped: map<nat, nat>, found: set<Block>) {
    && Known(st) == found
    && st.pending !! st.confirmed && st.pending !! st.orphaned && st.confirmed !! st.orphaned
    && (forall a, b | a in found && b in found :: a.mark == b.mark ==> a == b)
    && (forall b | b in found :: b.mark <= st.lastSeq)
    && (forall b | b in found :: SolvedBy(tally, seals, b))
    && (forall h | h in dropped :: SettledHeight(st, h))
  }

  ghost predicate WriterInv(cfg: Config, s: Sys) {
    match s.writer
    case Free => true
    case Busy(share, accepted, seqNo, stage) =>
      && share.valid && share.diff >= 0.0 && seqNo == s.store.lastSeq
      && (forall b | b in s.found :: b.mark < seqNo)
      && (cfg.mode == PPS ==> stage != ToTrim)
      && (if stage == ToLog then seqNo > Top(s.hist) else EntryOf(share, seqNo) in s.hist)
      && (stage in {ToLog, ToTrim, ToCount} ==> forall e | e in s.tally :: e.seqNo < seqNo)
      && (stage in {ToSeal, ToAdd} ==>
            && share.hasBlock && accepted
            && s.tally != []
            && s.tally[|s.tally| - 1] == EntryOf(share, seqNo))
      && (stage == ToSeal ==> OpenAt(s.seals) < |s.tally|)
      && (stage == ToAdd ==>
            && s.seals != []
            && s.seals[|s.seals| - 1].height == share.height
            && s.seals[|s.seals| - 1].hi == |s.tally|)
  }

  // ------------------------------------------------------------------
  // Money
  // ------------------------------------------------------------------

  /** An award hands out at most the reward and loses less than one satoshi per miner;
      solo pays the finder in full. */
  ghost predicate AwardOk(cfg: Config, a: Award) {
    && a.dist != map[]
    && a.reward - |a.dist| < Total(a.dist) <= a.reward
    && (cfg.mode == Solo ==> a.dist == map[a.block.finder := a.reward])
  }

  ghost predicate AwardsOk(cfg: Config, awards: seq<Award>) {
    && NoDuplicates(AwardBlocks(awards))
    && (forall a | a in awards :: AwardOk(cfg, a))
  }

  /** Per miner: carried-over balance plus recorded payouts is what was earned. */
  ghost predicate LedgerInv(cfg: Config, st: Store, awards: seq<Award>, credits: seq<Range>)
    requires cfg.magnitude > 0.0
  {
    && (forall m: Miner :: Get(st.balances, m) + Get(st.payouts, m) == AwardSum(awards, m) + CreditSum(cfg, credits, m))
    && AwardsOk(cfg, awards)
    && (forall b | b in AwardBlocks(awards) :: b in st.confirmed)
    && (cfg.mode != PPS ==> forall b | b in st.confirmed :: b in AwardBlocks(awards))
  }

  /** The committed ranges cover 1..cursor without gap or overlap, and each was credited
      with exactly the shares logged in it. */
  ghost predicate CreditInv(cursor: nat, hist: seq<Entry>, credits: seq<Range>) {
    && (forall i | 0 <= i < |credits| :: credits[i].lo == CreditedBefore(credits, i))
    && (forall i | 0 <= i < |credits| :: credits[i].lo <= credits[i].hi)
    && cursor == CreditedBefore(credits, |credits|)
    && (forall i | 0 <= i < |credits| :: credits[i].work == Totals(Between(hist, credits[i].lo, credits[i].hi)))
  }

  // ------------------------------------------------------------------
  // The run in progress
  // ------------------------------------------------------------------

  ghost predicate RangeOk(cfg: Config, cursor: nat, hist: seq<Entry>, lo: nat, hi: nat, work: map<Miner, real>) {
    && lo == cursor && lo <= hi <= Top(hist)
    && work == Totals(Between(hist, lo, hi))
    && (cfg.mode != PPS ==> hi == 0)
  }

  /** The amounts of a run agree with the store and with the work they are paid for. */
  ghost predicate RunOk(cfg: Config, st: Store, hist: seq<Entry>, run: Run)
    requires cfg.magnitude > 0.0
  {
    && run.balances == st.balances
    && (forall m: Miner :: Get(run.rewards, m) == AwardSum(run.awards, m) + Get(PpsRewards(cfg, run.work), m))
    && RangeOk(cfg, st.cursor, hist, run.lo, run.hi, run.work)
    && (forall a | a in run.awards :: AwardOk(cfg, a))
    && (cfg.mode == PPS ==> run.awards == [])
  }

  /** Three lists without a block in common or twice in one of them. */
  ghost predicate Distinct(a: seq<Block>, b: seq<Block>, c: seq<Block>) {
    && NoDuplicates(a) && NoDuplicates(b) && NoDuplicates(c)
    && (forall x | x in a :: x !in b && x !in c)
    && (forall x | x in b :: x !in c)
  }

  function HeightSet(blocks: seq<Block>): set<nat> {
    set b | b in blocks :: b.height
  }

  /** The blocks whose reward a run takes so far. */
  function Taken(cfg: Config, run: Run): seq<Block> {
    if cfg.mode == PPS then run.confirmed else AwardBlocks(run.awards)
  }

  ghost predicate ScanOk(cfg: Config, st: Store, hist: seq<Entry>, run: Run, todo: seq<Block>)
    requires cfg.magnitude > 0.0
  {
    && RunOk(cfg, st, hist, run)
    && Distinct(Taken(cfg, run), run.orphaned, todo)
    && (forall b | b in Taken(cfg, run) || b in run.orphaned || b in todo :: b in st.pending)
    && (cfg.mode != PPS ==> run.confirmed == [])
    && Elems(run.deleteRounds) == HeightSet(run.confirmed) + HeightSet(run.orphaned)
  }

  /** A run whose update lists are complete. */
  ghost predicate PlanOk(cfg: Config, st: Store, hist: seq<Entry>, run: Run)
    requires cfg.magnitude > 0.0
  {
    && RunOk(cfg, st, hist, run)
    && Distinct(run.confirmed, run.orphaned, [])
    && (forall b | b in run.confirmed || b in run.orphaned :: b in st.pending)
    && (cfg.mode != PPS ==> run.confirmed == AwardBlocks(run.awards))
    && Elems(run.deleteRounds) == HeightSet(run.confirmed) + HeightSet(run.orphaned)
  }

  /** An update that settles a run: per miner, new balance plus payment is old balance plus reward. */
  ghost predicate UpdateOk(u: Update, run: Run) {
    && u.confirmed == run.confirmed && u.orphaned == run.orphaned
    && u.deleteRounds == run.deleteRounds && u.cursor == run.hi
    && (forall m: Miner ::
          if m in u.balances then u.balances[m] + Get(u.paid, m) == Owed(run, m)
          else Get(u.paid, m) == 0 && Get(run.rewards, m) == 0)
  }

  /** An unstamped intent may or may not be on the chain; a stamped one is. */
  ghost predicate IntentInv(cfg: Config, s: Sys)
    requires cfg.magnitude > 0.0
  {
    match s.store.intent
    case NoIntent => !s.sent && s.net == Quiet
    case Torn(_) => false
    case Intent(u, txid) =>
      && PlanOk(cfg, s.store, s.hist, s.plan) && UpdateOk(u, s.plan)
      && (txid != "" ==> s.sent && s.net == Quiet)
      && (s.net.Request? ==> !s.sent && s.net.paid == u.paid)
      && (s.net.Answered? ==> (s.net.reply.Txid? <==> s.sent))
  }

  ghost predicate PayerInv(cfg: Config, s: Sys)
    requires cfg.magnitude > 0.0
  {
    var key := s.store.intent;
    match s.payer
    case Idle => true
    case Resume(u) => key.Intent? && key.update == u && key.txid != ""
    case Ready => key == NoIntent
    case Listed(todo) =>
      key == NoIntent && cfg.mode != PPS && NoDuplicates(todo) && forall b | b in todo :: b in s.store.pending
    case CursorRead(lo) => key == NoIntent && cfg.mode == PPS && lo == s.store.cursor
    case SharesRead(lo, work, hi) =>
      key == NoIntent && cfg.mode == PPS && RangeOk(cfg, s.store.cursor, s.hist, lo, hi, work)
    case Seeded(run) =>
      && key == NoIntent && cfg.mode == PPS && ScanOk(cfg, s.store, s.hist, run, [])
      && run.confirmed == [] && run.orphaned == []
    case Scan(run, todo) => key == NoIntent && ScanOk(cfg, s.store, s.hist, run, todo)
    case Planning(run, _) =>
      && !s.sent && s.net == Quiet && PlanOk(cfg, s.store, s.hist, run)
      && (key.Intent? ==> key.txid == "" && s.plan == run)
    case Persisted(run, u, _) => key == Intent(u, "") && !s.sent && s.net == Quiet && s.plan == run
    case Awaiting(run, u, _) => key == Intent(u, "") && s.plan == run
    case Stamping(u, _) => key == Intent(u, "") && s.sent && s.net == Quiet
    case Clearing => key.Intent? && key.txid == "" && !s.sent && s.net == Quiet
    case Committing(u) =>
      && s.net == Quiet
      && PlanOk(cfg, s.store, s.hist, s.plan) && UpdateOk(u, s.plan)
      && (if s.sent then key.Intent? && key.update == u else u.paid == map[])
  }

  /** What the wallet broadcast is what the store records, plus the intent in between. */
  ghost predicate WalletInv(s: Sys) {
    && (s.sent ==> s.store.intent.Intent?)
    && (forall m: Miner ::
          WalletSum(s.wallet, m)
              == Get(s.store.payouts, m) + (if s.sent then Get(s.store.intent.update.paid, m) else 0))
    && (s.sent ==>
          && s.wallet != []
          && s.wallet[|s.wallet| - 1] ==
             Broadcast(s.store.intent.update.paid, Elems(s.plan.confirmed), s.plan.lo, s.plan.hi))
    && (forall i | 0 <= i < |s.wallet| :: s.wallet[i].lo <= s.wallet[i].hi)
    && (forall i | 0 <= i < Applied(s) :: s.wallet[i].blocks <= s.store.confirmed && s.wallet[i].hi <= s.store.cursor)
    && ExactlyOnce(s.wallet)
  }

  /** How many broadcasts the store has recorded. */
  function Applied(s: Sys): int {
    |s.wallet| - if s.sent then 1 else 0
  }

  /** No block and no share is settled by two broadcasts. */
  ghost predicate ExactlyOnce(wallet: seq<Broadcast>) {
    forall i, j | 0 <= i < j < |wallet| :: wallet[i].blocks !! wallet[j].blocks && wallet[i].hi <= wallet[j].lo
  }

  ghost predicate Inv(cfg: Config, s: Sys)
    requires cfg.magnitude > 0.0
  {
    && LogInv(cfg, s.store.log, s.store.lastSeq, s.store.cursor, s.hist)
    && RoundInv(s.store.current, s.store.rounds, s.tally, s.seals, s.dropped)
    && CountedInv(s.hist, s.tally)
    && BlockInv(s.store, s.tally, s.seals, s.dropped, s.found)
    && WriterInv(cfg, s)
    && LedgerInv(cfg, s.store, s.awards, s.credits)
    && CreditInv(s.store.cursor, s.hist, s.credits)
    && IntentInv(cfg, s)
    && PayerInv(cfg, s)
    && WalletInv(s)
  }
}
