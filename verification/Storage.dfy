/** The Redis-backed store (storage/redis.go) with its keys as text: the share writer, the
    payout commit, the payout intent and the readers the payer uses. On keys whose texts are
    clean each is the protocol's step; what the text does otherwise is stated as well. */
module Storage {
  import opened Prelude
  import opened Shares
  import opened Ledger
  import opened Protocol
  import BlockText
  import LogText

  /** A run extended by one step. */
  lemma Extend(cfg: Config, s: Sys, steps: seq<Step>, step: Step)
    requires cfg.magnitude > 0.0
    requires CanRun(cfg, s, steps) && Enabled(cfg, RunFrom(cfg, s, steps), step)
    ensures CanRun(cfg, s, steps + [step])
    ensures RunFrom(cfg, s, steps + [step]) == Do(cfg, RunFrom(cfg, s, steps), step)
  {
    hide Do, Enabled;
    var t := RunFrom(cfg, s, steps);
    assert [step][1..] == [];
    assert CanRun(cfg, Do(cfg, t, step), []);
    assert CanRun(cfg, t, [step]);
    RunConcat(cfg, s, steps, [step]);
  }

  /** steps leads from s to t. */
  ghost predicate Leads(cfg: Config, s: Sys, steps: seq<Step>, t: Sys)
    requires cfg.magnitude > 0.0
  {
    CanRun(cfg, s, steps) && RunFrom(cfg, s, steps) == t
  }

  // ------------------------------------------------------------------
  // Keys as text
  // ------------------------------------------------------------------

  datatype Keys = Keys(
    lastSeq: nat,
    log: seq<LogText.Member>,
    current: map<Miner, real>,
    rounds: map<nat, map<Miner, real>>,
    pending: set<string>,
    confirmed: set<string>,
    orphaned: set<string>,
    balances: map<Miner, nat>,
    payouts: map<Miner, nat>,
    cursor: nat,
    intent: IntentKey)

  /** The records that can be read from a set of members. */
  ghost function BlocksOf(members: set<string>): set<Block> {
    set m | m in members && BlockText.Parse(m).Some? :: BlockText.Parse(m).value
  }

  /** The store that the readers see. */
  ghost function StoreOf(codec: LogText.Codec, k: Keys): Store {
    Store(k.lastSeq, LogText.Entries(codec, k.log), k.current, k.rounds,
          BlocksOf(k.pending), BlocksOf(k.confirmed), BlocksOf(k.orphaned), k.balances, k.payouts, k.cursor, k.intent)
  }

  predicate AllCanonical(members: set<string>) {
    forall m | m in members :: BlockText.Canonical(m)
  }

  /** Every text is the one that its record or share prints to. */
  predicate Clean(codec: LogText.Codec, k: Keys) {
    LogText.CleanLog(codec, k.log) && AllCanonical(k.pending) && AllCanonical(k.confirmed) && AllCanonical(k.orphaned)
  }

  /** The members that a list of blocks is moved by. */
  function Texts(blocks: seq<Block>): set<string> {
    set b | b in blocks :: BlockText.Text(b)
  }

  /** The keys after the MULTI/EXEC of one PaymentUpdate. */
  function CommitKeys(k: Keys, u: Update): Keys {
    var c, o := Texts(u.confirmed), Texts(u.orphaned);
    var left := k.pending - c;
    k.(
      balances := k.balances + u.balances,
      payouts := AddPaid(k.payouts, u.paid),
      pending := left - o,
      confirmed := k.confirmed + k.pending * c,
      orphaned := k.orphaned + left * o,
      rounds := k.rounds - Elems(u.deleteRounds),
      cursor := if u.cursor > 0 then u.cursor else k.cursor,
      log := if u.cursor > 0 then LogText.AboveScore(k.log, u.cursor) else k.log,
      intent := NoIntent)
  }

  /** The keys after one share was put. */
  function PutKeys(codec: LogText.Codec, k: Keys, share: Share, accepted: bool, pps: bool, cap: nat): Keys {
    var seqNo := if share.valid then k.lastSeq + 1 else 0;
    var counted := if share.valid then CountKeys(codec, k.(lastSeq := seqNo), EntryOf(share, seqNo), pps, cap) else k;
    if share.hasBlock && accepted then BlockKeys(counted, FoundBlock(share, seqNo)) else counted
  }

  function LogKeys(codec: LogText.Codec, k: Keys, e: Entry): Keys {
    k.(log := LogText.ZAddMember(k.log, LogText.MemberOf(codec, e)))
  }

  function TrimKeys(k: Keys, cap: nat): Keys {
    k.(log := LogText.KeepNewestMembers(k.log, cap))
  }

  function CreditKeys(k: Keys, e: Entry): Keys {
    k.(current := Credit(k.current, e.miner, e.diff))
  }

  /** A valid share is logged, the log capped unless in pps mode, and the share counted. */
  function CountKeys(codec: LogText.Codec, k: Keys, e: Entry, pps: bool, cap: nat): Keys {
    var logged := LogKeys(codec, k, e);
    CreditKeys(if pps then logged else TrimKeys(logged, cap), e)
  }

  /** The open round is sealed, if there is one, and the block's record added. */
  function BlockKeys(k: Keys, b: Block): Keys {
    k.(rounds := if k.current == map[] then k.rounds else k.rounds[b.height := k.current],
       current := map[],
       pending := k.pending + {BlockText.Text(b)})
  }

  /** What putting a share comes to. A valid share takes the next number, is the newest entry
      of the log as miner:difficulty:number, of which outside pps mode only the cap newest stay,
      and adds its difficulty to its miner's in the open round. An accepted block becomes pending
      as hash:txHash:height:miner:number, and closes the open round under its height, if there is
      one. Nothing else changes. */
  lemma PutMeans(codec: LogText.Codec, k: Keys, share: Share, accepted: bool, pps: bool, cap: nat)
    requires forall m | m in k.log :: m.score <= k.lastSeq
    ensures
      var after := PutKeys(codec, k, share, accepted, pps, cap);
      var n := if share.valid then k.lastSeq + 1 else 0;
      var block := share.hasBlock && accepted;
      var open := if share.valid then k.current[share.miner := GetReal(k.current, share.miner) + share.diff]
          else k.current;
      var logged := if share.valid then k.log + [LogText.Member(n, ShareText(codec, share, n))] else k.log;
      && after.lastSeq == (if share.valid then n else k.lastSeq)
      && after.log == (if !share.valid || pps || |logged| <= cap then logged else logged[|logged| - cap..])
      && after.pending == (if block then k.pending + {BlockRecord(share, n)} else k.pending)
      && after.current == (if block then map[] else open)
      && after.rounds == (if block && open != map[] then k.rounds[share.height := open] else k.rounds)
      && after == k.(lastSeq := after.lastSeq, log := after.log, pending := after.pending, current := after.current,
                     rounds := after.rounds)
  {
    hide CountKeys, ShareText, BlockRecord, BlockText.Text;
    if share.valid { CountEffect(codec, k.(lastSeq := k.lastSeq + 1), share, pps, cap); }
    RecordIs(share, if share.valid then k.lastSeq + 1 else 0);
  }

  lemma CountEffect(codec: LogText.Codec, k: Keys, share: Share, pps: bool, cap: nat)
    requires forall m | m in k.log :: m.score < k.lastSeq
    ensures
      var logged := k.log + [LogText.Member(k.lastSeq, ShareText(codec, share, k.lastSeq))];
      CountKeys(codec, k, EntryOf(share, k.lastSeq), pps, cap)
      == k.(log := if pps || |logged| <= cap then logged else logged[|logged| - cap..],
            current := k.current[share.miner := GetReal(k.current, share.miner) + share.diff])
  {
    hide LogText.ZAddMember, LogText.KeepNewestMembers, LogText.MemberOf, ShareText;
    var e := EntryOf(share, k.lastSeq);
    MemberIs(codec, share, k.lastSeq);
    LoggedLast(k.log, LogText.MemberOf(codec, e));
    Kept(k.log + [LogText.MemberOf(codec, e)], cap);
  }

  function ShareText(codec: LogText.Codec, share: Share, n: nat): string {
    share.miner + ":" + codec.format(share.diff) + ":" + BlockText.FormatInt(n)
  }

  function BlockRecord(share: Share, n: nat): string {
    share.blockHash + ":" + share.txHash + ":" + BlockText.FormatUint(share.height)
    + ":" + share.miner + ":" + BlockText.FormatInt(n)
  }

  lemma MemberIs(codec: LogText.Codec, share: Share, n: nat)
    ensures LogText.MemberOf(codec, EntryOf(share, n)) == LogText.Member(n, ShareText(codec, share, n))
  {
  }

  lemma RecordIs(share: Share, n: nat)
    ensures BlockRecord(share, n) == BlockText.Text(FoundBlock(share, n))
  {
    BlockText.TextIs(FoundBlock(share, n));
    hide BlockText.Text, BlockText.FormatUint, BlockText.FormatInt;
    assert BlockRecord(share, n)
        == share.blockHash + ":" + (share.txHash + ":" + (BlockText.FormatUint(share.height)
           + ":" + (share.miner + ":" + BlockText.FormatInt(n))));
  }

  /** A member with a higher score than all others goes last. */
  lemma LoggedLast(log: seq<LogText.Member>, m: LogText.Member)
    requires forall x | x in log :: x.score < m.score
    ensures LogText.ZAddMember(log, m) == log + [m]
  {
    AllBelow(log, m.score);
    assert log + [m] + [] == log + [m];
  }

  lemma {:induction false} AllBelow(log: seq<LogText.Member>, s: nat)
    requires forall x | x in log :: x.score <= s
    ensures LogText.UpToScore(log, s) == log && LogText.AboveScore(log, s) == []
  {
    if log != [] {
      AllBelow(log[1..], s);
    }
  }

  lemma Kept(log: seq<LogText.Member>, cap: nat)
    ensures LogText.KeepNewestMembers(log, cap) == if |log| <= cap then log else log[|log| - cap..]
  {
  }

  class DB {
    const codec: LogText.Codec
    const ppsMode: bool
    const logCap: nat
    var lastSeq: nat
    var log: seq<LogText.Member>
    var current: map<Miner, real>
    var rounds: map<nat, map<Miner, real>>
    var pending: set<string>
    var confirmed: set<string>
    var orphaned: set<string>
    var balances: map<Miner, nat>
    var payouts: map<Miner, nat>
    var cursor: nat
    var intent: IntentKey

    constructor (codec: LogText.Codec, pps: bool, cap: nat)
      ensures Valid() && Abs() == EMPTY_STORE && this.codec == codec && ppsMode == pps && logCap == cap
    {
      this.codec, ppsMode, logCap := codec, pps, cap;
      lastSeq, log, current, rounds := 0, [], map[], map[];
      pending, confirmed, orphaned := {}, {}, {};
      balances, payouts, cursor, intent := map[], map[], 0, NoIntent;
    }

    ghost function AllKeys(): Keys
      reads this
    {
      Keys(lastSeq, log, current, rounds, pending, confirmed, orphaned, balances, payouts, cursor, intent)
    }

    /** The store's keys as the readers see them. */
    ghost function Abs(): Store
      reads this
    {
      StoreOf(codec, AllKeys())
    }

    ghost predicate Valid()
      reads this
    {
      Clean(codec, AllKeys())
    }

    /** putShareNow: INCR first, then the pipeline, command by command, for any share. */
    method PutShareNow(share: Share, accepted: bool)
      modifies this
      ensures AllKeys() == PutKeys(codec, old(AllKeys()), share, accepted, ppsMode, logCap)
    {
      hide LogText.ZAddMember, LogText.KeepNewestMembers, LogText.MemberOf, Credit;
      var seqNo := 0;
      if share.valid {
        lastSeq := lastSeq + 1;
        seqNo := lastSeq;
        log := LogText.ZAddMember(log, LogText.MemberOf(codec, Entry(share.miner, share.diff, seqNo)));
        if !ppsMode {
          log := LogText.KeepNewestMembers(log, logCap);
        }
        current := Credit(current, share.miner, share.diff);
      }
      if share.hasBlock && accepted {
        if current != map[] { // RENAME fails when the source key does not exist
          rounds := rounds[share.height := current];
          current := map[];
        }
        pending := pending + {BlockText.Text(Block(share.blockHash, share.txHash, share.height, share.miner, seqNo))};
      }
    }

    /** ApplyPayments: the queued commands, applied together. On clean keys they are the
        protocol's commit. */
    method ApplyPayments(u: Update)
      modifies this
      ensures AllKeys() == CommitKeys(old(AllKeys()), u)
      ensures old(Valid()) ==> Valid() && Abs() == Commit(old(Abs()), u)
    {
      hide AddPaid, Elems, Texts, LogText.AboveScore, Clean, StoreOf, Commit;
      ghost var k := AllKeys();
      SetBalances(u.balances);
      AddPayouts(u.paid);
      MoveBlocks(u.confirmed, u.orphaned);
      Finish(u);
      ghost var left := k.pending - Texts(u.confirmed);
      assert pending == left - Texts(u.orphaned);
      assert orphaned == k.orphaned + left * Texts(u.orphaned);
      if Clean(codec, k) { CommitsClean(codec, k, u); }
    }

    /** The rounds, the pps cursor with its log, and the intent. */
    method Finish(u: Update)
      modifies this`rounds, this`cursor, this`log, this`intent
      ensures rounds == old(rounds) - Elems(u.deleteRounds) && intent == NoIntent
      ensures cursor == if u.cursor > 0 then u.cursor else old(cursor)
      ensures log == if u.cursor > 0 then LogText.AboveScore(old(log), u.cursor) else old(log)
    {
      DeleteRounds(u.deleteRounds);
      if u.cursor > 0 {
        cursor := u.cursor;
        log := LogText.AboveScore(log, u.cursor);
      }
      intent := NoIntent;
    }

    /** HSET of every new balance. */
    method SetBalances(news: map<Miner, nat>)
      modifies this`balances
      ensures balances == old(balances) + news
    {
      var todo := news.Keys;
      while todo != {}
        invariant todo <= news.Keys
        invariant balances == old(balances) + (news - todo)
        decreases |todo|
      {
        var m :| m in todo;
        balances := balances[m := news[m]];
        todo := todo - {m};
      }
      assert news - {} == news;
    }

    /** HINCRBYFLOAT of every payment. */
    method AddPayouts(paid: map<Miner, nat>)
      modifies this`payouts
      ensures payouts == AddPaid(old(payouts), paid)
    {
      var todo := paid.Keys;
      assert paid - paid.Keys == map[];
      AddNothing(payouts);
      while todo != {}
        invariant todo <= paid.Keys
        invariant payouts == AddPaid(old(payouts), paid - todo)
        decreases |todo|
      {
        var m :| m in todo;
        AddOne(old(payouts), paid - todo, m, paid[m]);
        assert (paid - todo)[m := paid[m]] == paid - (todo - {m});
        payouts := payouts[m := Get(payouts, m) + paid[m]];
        todo := todo - {m};
      }
      assert paid - {} == paid;
    }

    /** DEL of every settled round. */
    method DeleteRounds(heights: seq<nat>)
      modifies this`rounds
      ensures rounds == old(rounds) - Elems(heights)
    {
      for i := 0 to |heights|
        invariant rounds == old(rounds) - Elems(heights[..i])
      {
        rounds := rounds - {heights[i]};
        assert heights[..i + 1] == heights[..i] + [heights[i]];
      }
      assert heights[..|heights|] == heights;
    }

    /** SMOVE of every settled block, by its text. */
    method MoveBlocks(c: seq<Block>, o: seq<Block>)
      modifies this`pending, this`confirmed, this`orphaned
      ensures pending == old(pending) - Texts(c) - Texts(o)
      ensures confirmed == old(confirmed) + old(pending) * Texts(c)
      ensures orphaned == old(orphaned) + (old(pending) - Texts(c)) * Texts(o)
    {
      SMoveConfirmed(c);
      SMoveOrphaned(o);
    }

    /** SMOVE pending -> confirmed for each listed text that is still pending. */
    method SMoveConfirmed(blocks: seq<Block>)
      modifies this`pending, this`confirmed
      ensures pending == old(pending) - Texts(blocks)
      ensures confirmed == old(confirmed) + old(pending) * Texts(blocks)
    {
      hide BlockText.Text;
      for i := 0 to |blocks|
        invariant pending == old(pending) - Texts(blocks[..i])
        invariant confirmed == old(confirmed) + old(pending) * Texts(blocks[..i])
      {
        TextsNext(blocks, i);
        var member := BlockText.Text(blocks[i]);
        if member in pending {
          pending := pending - {member};
          confirmed := confirmed + {member};
        }
      }
      assert blocks[..|blocks|] == blocks;
    }

    /** SMOVE pending -> orphaned. */
    method SMoveOrphaned(blocks: seq<Block>)
      modifies this`pending, this`orphaned
      ensures pending == old(pending) - Texts(blocks)
      ensures orphaned == old(orphaned) + old(pending) * Texts(blocks)
    {
      hide BlockText.Text;
      for i := 0 to |blocks|
        invariant pending == old(pending) - Texts(blocks[..i])
        invariant orphaned == old(orphaned) + old(pending) * Texts(blocks[..i])
      {
        TextsNext(blocks, i);
        var member := BlockText.Text(blocks[i]);
        if member in pending {
          pending := pending - {member};
          orphaned := orphaned + {member};
        }
      }
      assert blocks[..|blocks|] == blocks;
    }

    method PutPayoutIntent(u: Update)
      modifies this`intent
      ensures intent == Intent(u, "") && IntentOnly(old(AllKeys()), old(Abs()), old(Valid()))
    {
      intent := Intent(u, "");
    }

    method SetPayoutIntentTxid(txid: string)
      modifies this`intent
      ensures intent == StampTxid(old(intent), txid) && IntentOnly(old(AllKeys()), old(Abs()), old(Valid()))
    {
      intent := match intent
        case NoIntent => Torn(txid)
        case Intent(u, _) => Intent(u, txid)
        case Torn(_) => Torn(txid);
    }

    method DelPayoutIntent()
      modifies this`intent
      ensures intent == NoIntent && IntentOnly(old(AllKeys()), old(Abs()), old(Valid()))
    {
      intent := NoIntent;
    }

    /** Nothing but the intent differs from the given keys. */
    ghost predicate IntentOnly(k: Keys, st: Store, valid: bool)
      reads this
    {
      AllKeys() == k.(intent := intent) && Abs() == st.(intent := intent) && Valid() == valid
    }

    lemma Unchanged()
      ensures Abs().intent == intent && IntentOnly(AllKeys(), Abs(), Valid())
    {
      hide LogText.Entries, BlocksOf;
    }

    /** GetAllPendingBlocks: the records of all members, in some order; None when one of them
        cannot be read. members tells which one each record was read from. */
    method GetAllPendingBlocks() returns (blocks: Option<seq<Block>>, ghost members: seq<string>)
      ensures blocks.None? <==> !Readable(pending)
      ensures blocks.Some? ==> ReadFrom(pending, members, blocks.value)
      ensures Valid() ==> blocks.Some? && Listing(Abs(), blocks.value)
    {
      hide BlockText.Parse, LogText.Entries, BlockText.Canonical, LogText.CleanLog;
      if Valid() { AllReadable(pending); }
      var list: seq<Block> := [];
      members := [];
      var todo := pending;
      while todo != {}
        invariant todo <= pending && Elems(members) == pending - todo && |members| + |todo| == |pending|
        invariant |list| == |members|
        invariant forall i | 0 <= i < |list| :: BlockText.Parse(members[i]) == Some(list[i])
        decreases |todo|
      {
        var m :| m in todo;
        var b := BlockText.Parse(m);
        if b == None {
          return None, members;
        }
        ElemsSnoc(members, m);
        list, members := list + [b.value], members + [m];
        todo := todo - {m};
      }
      blocks := Some(list);
      EachRead(pending, members, list);
      if Valid() { ReadsListing(pending, members, list); }
    }

    /** GetPPLNSShares: walk the log backward from the mark until the window is reached,
        skipping members that cannot be read. */
    method GetPPLNSShares(uptoSeq: int, window: real) returns (out: map<Miner, real>)
      ensures out == WindowShares(Abs().log, uptoSeq, window)
    {
      hide UpTo, Totals, Work, Credit, WindowFrom, LogText.Read, LogText.Entries, LogText.UpToScore;
      var members := LogText.UpToScore(log, uptoSeq);
      LogText.EntriesSelected(codec, log, uptoSeq);
      ghost var es := LogText.Entries(codec, members);
      ghost var k: nat := |es|;
      out := map[];
      var cum := 0.0;
      var n := |members|;
      WindowOpens(es);
      assert members[..n] == members;
      while n > 0
        invariant 0 <= n <= |members| && k <= |es|
        invariant LogText.Entries(codec, members[..n]) == es[..k]
        invariant out == Totals(es[k..]) && cum == Work(es[k..])
        invariant k < |es| && window > 0.0 ==> cum < window
        invariant WindowStart(es, window) == WindowFrom(es, window, k)
        decreases n
      {
        n := n - 1;
        LastRead(codec, members, n);
        var r := LogText.Read(codec, members[n].text);
        if r == None {
          continue;
        }
        assert es[..k][k - 1] == es[k - 1];
        assert es[..k][..k - 1] == es[..k - 1];
        WindowExtends(es, window, k);
        k := k - 1;
        out := Credit(out, r.value.miner, r.value.diff);
        cum := cum + r.value.diff;
        if window > 0.0 && cum >= window {
          break;
        }
      }
      if n == 0 && k > 0 && !(window > 0.0 && cum >= window) { NothingRead(codec, members); }
      WindowStops(es, window, k);
    }

    /** GetSharesSince: per-miner difficulty newer than the cursor and the highest score seen,
        skipping members that cannot be read. */
    method GetSharesSince(since: nat) returns (out: map<Miner, real>, maxSeq: nat)
      ensures out == Totals(After(Abs().log, since)) && maxSeq == MaxSeq(After(Abs().log, since), since)
    {
      hide After, Totals, Credit, LogText.Read, LogText.Entries, LogText.AboveScore;
      var zs := LogText.AboveScore(log, since);
      LogText.EntriesSelected(codec, log, since);
      out, maxSeq := map[], since;
      NoneSince(codec, zs, since);
      for i := 0 to |zs|
        invariant out == Totals(LogText.Entries(codec, zs[..i]))
        invariant maxSeq == MaxSeq(LogText.Entries(codec, zs[..i]), since)
      {
        NextSince(codec, zs, i, since);
        var r := LogText.Read(codec, zs[i].text);
        if r == None {
          continue;
        }
        out := Credit(out, r.value.miner, r.value.diff);
        if zs[i].score > maxSeq {
          maxSeq := zs[i].score;
        }
      }
      assert zs[..|zs|] == zs;
    }
  }

  /** Every member can be read. */
  predicate Readable(members: set<string>) {
    forall m | m in members :: BlockText.Parse(m).Some?
  }

  /** The records were read from exactly these members, each from its own. */
  ghost predicate ReadFrom(pending: set<string>, members: seq<string>, blocks: seq<Block>) {
    && Elems(members) == pending && |members| == |pending| && |blocks| == |members|
    && forall i | 0 <= i < |blocks| :: BlockText.Parse(members[i]) == Some(blocks[i])
  }

  lemma EachRead(pending: set<string>, members: seq<string>, blocks: seq<Block>)
    requires ReadFrom(pending, members, blocks)
    ensures Readable(pending)
  {
    hide BlockText.Parse;
    forall m | m in pending ensures BlockText.Parse(m).Some? {
      assert m in members;
      var i :| 0 <= i < |members| && members[i] == m;
    }
  }

  lemma ElemsSnoc<T>(s: seq<T>, x: T)
    ensures Elems(s + [x]) == Elems(s) + {x}
  {
  }

  lemma TextsNext(blocks: seq<Block>, i: nat)
    requires i < |blocks|
    ensures Texts(blocks[..i + 1]) == Texts(blocks[..i]) + {BlockText.Text(blocks[i])}
  {
    hide BlockText.Text;
    assert blocks[..i + 1] == blocks[..i] + [blocks[i]];
  }

  lemma AllReadable(members: set<string>)
    requires AllCanonical(members)
    ensures Readable(members)
  {
    forall m | m in members ensures BlockText.Parse(m).Some? {
      BlockText.PrintsBack(m);
    }
  }

  /** On canonical members the records tell the members apart. */
  lemma {:induction false} ReadsListing(pending: set<string>, members: seq<string>, blocks: seq<Block>)
    requires AllCanonical(pending) && ReadFrom(pending, members, blocks)
    ensures Elems(blocks) == BlocksOf(pending) && |blocks| == |BlocksOf(pending)|
  {
    AllReadable(pending);
    forall b | b in BlocksOf(pending) ensures b in blocks {
      var m :| m in pending && BlockText.Parse(m) == Some(b);
      assert m in members;
    }
    forall b | b in blocks ensures b in BlocksOf(pending) {
      var i :| 0 <= i < |blocks| && blocks[i] == b;
      assert members[i] in Elems(members);
    }
    SameCount(pending);
  }

  lemma {:induction false} SameCount(members: set<string>)
    requires AllCanonical(members)
    ensures |BlocksOf(members)| == |members|
    decreases |members|
  {
    if members != {} {
      var m :| m in members;
      var rest := members - {m};
      AllReadable(members);
      SameCount(rest);
      var b := BlockText.Parse(m).value;
      BlockText.PrintsBack(m);
      forall n | n in rest ensures BlockText.Parse(n).value != b {
        BlockText.PrintsBack(n);
      }
      assert BlocksOf(members) == BlocksOf(rest) + {b};
    }
  }

  // ------------------------------------------------------------------
  // Clean keys are the protocol's store
  // ------------------------------------------------------------------

  /** Removing texts removes exactly the records that print to them. */
  lemma MovesRecords(members: set<string>, blocks: seq<Block>)
    requires AllCanonical(members)
    ensures BlocksOf(members - Texts(blocks)) == BlocksOf(members) - Elems(blocks)
    ensures BlocksOf(members * Texts(blocks)) == BlocksOf(members) * Elems(blocks)
  {
    AllReadable(members);
    forall m | m in members ensures m in Texts(blocks) <==> BlockText.Parse(m).value in blocks {
      BlockText.PrintsBack(m);
      if m in Texts(blocks) {
        var b :| b in blocks && BlockText.Text(b) == m;
        BlockText.WrittenIsCanonical(b);
        BlockText.RoundTrip(b);
      }
    }
    hide BlockText.Parse, BlockText.Text, BlockText.Canonical;
    assert forall m, n | m in members && n in members && BlockText.Parse(m) == BlockText.Parse(n) ::
        m in Texts(blocks) <==> n in Texts(blocks);
  }

  lemma BlocksJoin(a: set<string>, b: set<string>)
    ensures BlocksOf(a + b) == BlocksOf(a) + BlocksOf(b)
  {
    hide BlockText.Parse;
  }

  lemma CommitsClean(codec: LogText.Codec, k: Keys, u: Update)
    requires Clean(codec, k)
    ensures Clean(codec, CommitKeys(k, u)) && StoreOf(codec, CommitKeys(k, u)) == Commit(StoreOf(codec, k), u)
  {
    hide LogText.CleanLog, LogText.Entries, BlockText.Canonical, AddPaid, After, Texts, BlocksOf, LogText.AboveScore;
    var left := k.pending - Texts(u.confirmed);
    MovesRecords(k.pending, u.confirmed);
    MovesRecords(left, u.orphaned);
    BlocksJoin(k.confirmed, k.pending * Texts(u.confirmed));
    BlocksJoin(k.orphaned, left * Texts(u.orphaned));
    if u.cursor > 0 {
      LogText.DropsCredited(codec, k.log, u.cursor);
      LogText.EntriesSelected(codec, k.log, u.cursor);
    }
  }

  /** Putting a share into clean keys is the writer's path through the protocol, from a free
      writer back to a free writer. */
  lemma PutIsPath(cfg: Config, s: Sys, codec: LogText.Codec, k: Keys, share: Share, accepted: bool)
    returns (steps: seq<Step>, t: Sys)
    requires cfg.magnitude > 0.0 && Clean(codec, k) && s.store == StoreOf(codec, k)
    requires Enabled(cfg, s, WBegin(share, accepted)) && LogText.Writable(codec, share.diff)
    ensures
      var after := PutKeys(codec, k, share, accepted, cfg.mode == PPS, cfg.cap);
      Clean(codec, after) && t.store == StoreOf(codec, after)
    ensures Leads(cfg, s, steps, t) && t.writer.Free?
    ensures t == s.(store := t.store, hist := t.hist, tally := t.tally, seals := t.seals, found := t.found)
    ensures share.valid ==>
              var e := EntryOf(share, k.lastSeq + 1);
              t.hist == s.hist + [e] && t.tally == s.tally + [e]
    ensures share.valid && share.hasBlock && accepted ==> t.found == s.found + {FoundBlock(share, k.lastSeq + 1)}
    ensures !share.valid ==> t == s
  {
    hide Do, Enabled, WriterExec, StoreOf, Clean, CountKeys, BlockKeys, Leads, BlockText.Plain;
    Accepts(cfg, s, share, accepted);
    steps, t := TakeShare(cfg, s, share, accepted);
    if share.valid {
      var k1 := k.(lastSeq := k.lastSeq + 1);
      NextNumber(codec, k);
      steps, t := RecordPath(cfg, s, steps, t, codec, k1);
      var k2 := CountKeys(codec, k1, EntryOf(share, k1.lastSeq), cfg.mode == PPS, cfg.cap);
      if share.hasBlock && accepted {
        steps, t := BlockPath(cfg, s, steps, t, codec, k2);
      }
    }
  }

  /** What the writer may be handed. */
  lemma Accepts(cfg: Config, s: Sys, share: Share, accepted: bool)
    requires Enabled(cfg, s, WBegin(share, accepted))
    ensures share.valid ==> ColonFree(share.miner)
    ensures share.valid && share.hasBlock && accepted ==> BlockText.Plain(FoundBlock(share, s.store.lastSeq + 1))
  {
  }

  lemma NextNumber(codec: LogText.Codec, k: Keys)
    ensures Clean(codec, k) ==> Clean(codec, k.(lastSeq := k.lastSeq + 1))
    ensures StoreOf(codec, k.(lastSeq := k.lastSeq + 1)) == StoreOf(codec, k).(lastSeq := k.lastSeq + 1)
    ensures StoreOf(codec, k).lastSeq == k.lastSeq
  {
    hide LogText.Entries, BlocksOf, LogText.CleanLog, AllCanonical;
  }

  /** The commands for a valid share. */
  lemma RecordPath(cfg: Config, s: Sys, steps0: seq<Step>, t0: Sys, codec: LogText.Codec, k: Keys)
    returns (steps: seq<Step>, t: Sys)
    requires cfg.magnitude > 0.0 && Leads(cfg, s, steps0, t0)
    requires t0.writer.Busy? && t0.writer.stage == ToLog && t0.writer.seqNo == k.lastSeq
    requires Clean(codec, k) && t0.store == StoreOf(codec, k)
    requires ColonFree(t0.writer.share.miner) && LogText.Writable(codec, t0.writer.share.diff)
    ensures
      var e := EntryOf(t0.writer.share, k.lastSeq);
      var after := CountKeys(codec, k, e, cfg.mode == PPS, cfg.cap);
      var w := t0.writer;
      && Clean(codec, after) && Leads(cfg, s, steps, t)
      && t == t0.(store := StoreOf(codec, after), hist := t0.hist + [e], tally := t0.tally + [e],
                  writer := if w.share.hasBlock && w.accepted then w.(stage := ToSeal) else Free)
  {
    hide Leads, Clean, StoreOf, LogKeys, TrimKeys, CreditKeys;
    var e := EntryOf(t0.writer.share, k.lastSeq);
    steps, t := TakeLog(cfg, s, steps0, t0, codec, k);
    var k2 := LogKeys(codec, k, e);
    if cfg.mode != PPS {
      steps, t := TakeTrim(cfg, s, steps, t, codec, k2);
      k2 := TrimKeys(k2, cfg.cap);
    }
    steps, t := TakeCount(cfg, s, steps, t, codec, k2);
  }

  lemma TakeLog(cfg: Config, s: Sys, steps0: seq<Step>, t0: Sys, codec: LogText.Codec, k: Keys)
    returns (steps: seq<Step>, t: Sys)
    requires cfg.magnitude > 0.0 && Leads(cfg, s, steps0, t0) && t0.writer.Busy? && t0.writer.stage == ToLog
    requires Clean(codec, k) && t0.store == StoreOf(codec, k)
    requires ColonFree(t0.writer.share.miner) && LogText.Writable(codec, t0.writer.share.diff)
    ensures
      var e := EntryOf(t0.writer.share, t0.writer.seqNo);
      && Clean(codec, LogKeys(codec, k, e)) && Leads(cfg, s, steps, t)
      && t == t0.(store := StoreOf(codec, LogKeys(codec, k, e)), hist := t0.hist + [e],
                  writer := t0.writer.(stage := if cfg.mode == PPS then ToCount else ToTrim))
  {
    hide Leads, ZAdd, Clean, StoreOf, LogKeys;
    LogStep(codec, k, EntryOf(t0.writer.share, t0.writer.seqNo));
    steps, t := TakeCommand(cfg, s, steps0, t0);
  }

  lemma TakeTrim(cfg: Config, s: Sys, steps0: seq<Step>, t0: Sys, codec: LogText.Codec, k: Keys)
    returns (steps: seq<Step>, t: Sys)
    requires cfg.magnitude > 0.0 && Leads(cfg, s, steps0, t0) && t0.writer.Busy? && t0.writer.stage == ToTrim
    requires Clean(codec, k) && t0.store == StoreOf(codec, k)
    ensures Clean(codec, TrimKeys(k, cfg.cap)) && Leads(cfg, s, steps, t)
    ensures t == t0.(store := StoreOf(codec, TrimKeys(k, cfg.cap)), writer := t0.writer.(stage := ToCount))
  {
    hide Leads, KeepNewest, Clean, StoreOf, TrimKeys;
    TrimStep(codec, k, cfg.cap);
    steps, t := TakeCommand(cfg, s, steps0, t0);
  }

  lemma TakeCount(cfg: Config, s: Sys, steps0: seq<Step>, t0: Sys, codec: LogText.Codec, k: Keys)
    returns (steps: seq<Step>, t: Sys)
    requires cfg.magnitude > 0.0 && Leads(cfg, s, steps0, t0) && t0.writer.Busy? && t0.writer.stage == ToCount
    requires Clean(codec, k) && t0.store == StoreOf(codec, k)
    ensures
      var w := t0.writer;
      var e := EntryOf(w.share, w.seqNo);
      && Clean(codec, CreditKeys(k, e)) && Leads(cfg, s, steps, t)
      && t == t0.(store := StoreOf(codec, CreditKeys(k, e)), tally := t0.tally + [e],
                  writer := if w.share.hasBlock && w.accepted then w.(stage := ToSeal) else Free)
  {
    hide Leads, Credit, Clean, StoreOf, CreditKeys;
    CountStep(codec, k, EntryOf(t0.writer.share, t0.writer.seqNo));
    steps, t := TakeCommand(cfg, s, steps0, t0);
  }

  lemma LogStep(codec: LogText.Codec, k: Keys, e: Entry)
    requires Clean(codec, k) && ColonFree(e.miner) && LogText.Writable(codec, e.diff)
    ensures
      var after := LogKeys(codec, k, e);
      Clean(codec, after) && StoreOf(codec, after) == StoreOf(codec, k).(log := ZAdd(StoreOf(codec, k).log, e))
  {
    hide LogText.Entries, BlocksOf, AllCanonical, LogText.CleanLog, LogText.ZAddMember, LogText.MemberOf, ZAdd;
    LogText.LogsEntry(codec, k.log, e);
  }

  lemma TrimStep(codec: LogText.Codec, k: Keys, cap: nat)
    requires Clean(codec, k)
    ensures
      var after := TrimKeys(k, cap);
      Clean(codec, after) && StoreOf(codec, after) == StoreOf(codec, k).(log := KeepNewest(StoreOf(codec, k).log, cap))
  {
    hide LogText.Entries, BlocksOf, AllCanonical, LogText.CleanLog, LogText.KeepNewestMembers, KeepNewest;
    LogText.KeepsNewest(codec, k.log, cap);
  }

  lemma CountStep(codec: LogText.Codec, k: Keys, e: Entry)
    ensures
      var after := CreditKeys(k, e);
      (Clean(codec, k) ==> Clean(codec, after))
      && StoreOf(codec, after) == StoreOf(codec, k).(current := Credit(StoreOf(codec, k).current, e.miner, e.diff))
  {
    hide LogText.Entries, BlocksOf, AllCanonical, LogText.CleanLog, Credit;
  }

  /** The commands for an accepted block. */
  lemma BlockPath(cfg: Config, s: Sys, steps0: seq<Step>, t0: Sys, codec: LogText.Codec, k: Keys)
    returns (steps: seq<Step>, t: Sys)
    requires cfg.magnitude > 0.0 && Leads(cfg, s, steps0, t0)
    requires t0.writer.Busy? && t0.writer.stage == ToSeal && t0.writer.share.hasBlock && t0.writer.accepted
    requires Clean(codec, k) && t0.store == StoreOf(codec, k)
    requires BlockText.Plain(FoundBlock(t0.writer.share, t0.writer.seqNo))
    ensures
      var b := FoundBlock(t0.writer.share, t0.writer.seqNo);
      && Clean(codec, BlockKeys(k, b)) && Leads(cfg, s, steps, t)
      && t == t0.(store := StoreOf(codec, BlockKeys(k, b)), writer := Free, seals := t.seals, found := t0.found + {b})
  {
    hide Leads, Clean, StoreOf, BlockText.Plain, BlockKeys;
    var w := t0.writer;
    var b := FoundBlock(w.share, w.seqNo);
    SealStep(codec, k, b);
    steps, t := TakeCommand(cfg, s, steps0, t0);
    assert t == t0.(store := t.store, writer := w.(stage := ToAdd), seals := t.seals);
    assert t.store == Exec(SealRound(b.height), t0.store, cfg.cap);
    steps, t := TakeCommand(cfg, s, steps, t);
  }

  lemma SealStep(codec: LogText.Codec, k: Keys, b: Block)
    requires Clean(codec, k) && BlockText.Plain(b)
    ensures Clean(codec, BlockKeys(k, b))
    ensures
      var st := StoreOf(codec, k);
      var sealed := if st.current == map[] then st
          else st.(rounds := st.rounds[b.height := st.current], current := map[]);
      StoreOf(codec, BlockKeys(k, b)) == sealed.(pending := sealed.pending + {b})
  {
    BlockText.WrittenIsCanonical(b);
    BlockText.RoundTrip(b);
    BlocksJoin(k.pending, {BlockText.Text(b)});
    hide LogText.Entries, LogText.CleanLog, BlockText.Canonical, BlockText.Text, BlockText.Parse;
    assert BlocksOf({BlockText.Text(b)}) == {b};
  }

  // ------------------------------------------------------------------
  // The readers' loops
  // ------------------------------------------------------------------

  /** The newest of n + 1 members is read last. */
  lemma LastRead(codec: LogText.Codec, members: seq<LogText.Member>, n: nat)
    requires n < |members|
    ensures LogText.Entries(codec, members[..n + 1])
            == match LogText.Read(codec, members[n].text)
               case None => LogText.Entries(codec, members[..n])
               case Some(r) => LogText.Entries(codec, members[..n]) + [Entry(r.miner, r.diff, members[n].score)]
  {
    hide LogText.Read;
    assert members[..n + 1] == members[..n] + [members[n]];
    LogText.EntriesConcat(codec, members[..n], [members[n]]);
    assert [members[n]][1..] == [];
  }

  lemma NothingRead(codec: LogText.Codec, members: seq<LogText.Member>)
    ensures LogText.Entries(codec, members[..0]) == []
  {
  }

  lemma NoneSince(codec: LogText.Codec, zs: seq<LogText.Member>, since: nat)
    ensures Totals(LogText.Entries(codec, zs[..0])) == map[] && MaxSeq(LogText.Entries(codec, zs[..0]), since) == since
  {
  }

  lemma NextSince(codec: LogText.Codec, zs: seq<LogText.Member>, i: nat, since: nat)
    requires i < |zs|
    ensures
      var before, after := LogText.Entries(codec, zs[..i]), LogText.Entries(codec, zs[..i + 1]);
      match LogText.Read(codec, zs[i].text)
      case None => after == before
      case Some(r) =>
        && Totals(after) == Credit(Totals(before), r.miner, r.diff)
        && MaxSeq(after, since) == if zs[i].score > MaxSeq(before, since) then zs[i].score else MaxSeq(before, since)
  {
    hide LogText.Read, Credit, LogText.Entries;
    LastRead(codec, zs, i);
    if LogText.Read(codec, zs[i].text).Some? {
      var before, r := LogText.Entries(codec, zs[..i]), LogText.Read(codec, zs[i].text).value;
      assert (before + [Entry(r.miner, r.diff, zs[i].score)])[..|before|] == before;
    }
  }

  /** One more step of a run under construction. */
  lemma Take(cfg: Config, s: Sys, steps: seq<Step>, t: Sys, step: Step)
    returns (steps': seq<Step>, t': Sys)
    requires cfg.magnitude > 0.0
    requires Leads(cfg, s, steps, t) && Enabled(cfg, t, step)
    ensures steps' == steps + [step] && t' == Do(cfg, t, step)
    ensures Leads(cfg, s, steps', t')
  {
    Extend(cfg, s, steps, step);
    steps', t' := steps + [step], Do(cfg, t, step);
  }

  lemma WindowOpens(es: seq<Entry>)
    ensures Totals(es[|es|..]) == map[] && Work(es[|es|..]) == 0.0
  {
  }

  lemma WindowExtends(es: seq<Entry>, window: real, n: nat)
    requires 0 < n <= |es| && (n < |es| && window > 0.0 ==> Work(es[n..]) < window)
    ensures Totals(es[n - 1..]) == Credit(Totals(es[n..]), es[n - 1].miner, es[n - 1].diff)
    ensures Work(es[n - 1..]) == Work(es[n..]) + es[n - 1].diff
    ensures WindowFrom(es, window, n) == WindowFrom(es, window, n - 1)
  {
    assert es[n - 1..] == [es[n - 1]] + es[n..];
    TotalsPrepend(es[n - 1], es[n..]);
    assert n == |es| ==> es[n..] == [];
  }

  lemma WindowStops(es: seq<Entry>, window: real, n: nat)
    requires n <= |es| && (n == 0 || (window > 0.0 && Work(es[n..]) >= window))
    ensures WindowFrom(es, window, n) == n
  {
  }

  lemma AddNothing(payouts: map<Miner, nat>)
    ensures AddPaid(payouts, map[]) == payouts
  {
  }

  lemma AddOne(payouts: map<Miner, nat>, paid: map<Miner, nat>, m: Miner, n: nat)
    requires m !in paid
    ensures
      var sum := AddPaid(payouts, paid);
      sum[m := Get(sum, m) + n] == AddPaid(payouts, paid[m := n])
  {
  }

  /** The writer takes a share from its queue. */
  lemma TakeShare(cfg: Config, s: Sys, share: Share, accepted: bool) returns (steps: seq<Step>, t: Sys)
    requires cfg.magnitude > 0.0 && Enabled(cfg, s, WBegin(share, accepted))
    ensures Leads(cfg, s, steps, t)
    ensures s.writer.Free? && (share.hasBlock && accepted ==> share.valid)
    ensures t == if !share.valid then s
                 else s.(store := s.store.(lastSeq := s.store.lastSeq + 1),
                         writer := Busy(share, accepted, s.store.lastSeq + 1, ToLog))
  {
    steps, t := Take(cfg, s, [], s, WBegin(share, accepted));
  }

  /** The writer runs its next command. */
  lemma TakeCommand(cfg: Config, s: Sys, steps: seq<Step>, t: Sys) returns (steps': seq<Step>, t': Sys)
    requires cfg.magnitude > 0.0 && Leads(cfg, s, steps, t) && t.writer.Busy?
    ensures t' == WriterExec(cfg, t) && Leads(cfg, s, steps', t')
  {
    steps', t' := Take(cfg, s, steps, t, WExec);
  }
}
