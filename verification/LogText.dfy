/** The text of a share in the share log (storage/redis.go): "miner:diff:seq", read back by
    splitting at the first two colons. How a difficulty is written and read is strconv's
    business and a parameter here. */
module LogText {
  import opened Prelude
  import opened Shares
  import opened Ledger
  import BlockText

  /** A member of the sorted set. */
  datatype Member = Member(score: nat, text: string)

  /** FormatFloat and ParseFloat. */
  datatype Codec = Codec(format: real -> string, parse: string -> Option<real>)

  /** A difficulty that survives being written, as every float64 does. */
  predicate Writable(codec: Codec, diff: real) {
    ColonFree(codec.format(diff)) && codec.parse(codec.format(diff)) == Some(diff)
  }

  datatype Halves = Halves(head: string, tail: string)

  /** The parts before and after the first colon. */
  function Cut(s: string): Option<Halves> {
    if s == "" then None
    else if s[0] == ':' then Some(Halves("", s[1..]))
    else
      var rest :- Cut(s[1..]);
      Some(Halves([s[0]] + rest.head, rest.tail))
  }

  /** strings.SplitN into at most three parts at colons. */
  function SplitThree(s: string): (parts: seq<string>)
    ensures 1 <= |parts| <= 3
  {
    match Cut(s)
    case None => [s]
    case Some(a) =>
      match Cut(a.tail)
      case None => [a.head, a.tail]
      case Some(b) => [a.head, b.head, b.tail]
  }

  datatype Reading = Reading(miner: Miner, diff: real)

  /** What the readers make of a member; None is one that they skip. */
  function Read(codec: Codec, text: string): Option<Reading> {
    var p := SplitThree(text);
    if |p| < 2 then None
    else
      var diff :- codec.parse(p[1]);
      Some(Reading(p[0], diff))
  }

  function Print(miner: Miner, diffText: string, seqNo: nat): string {
    miner + ":" + diffText + ":" + BlockText.FormatInt(seqNo)
  }

  lemma {:induction false} CutFirst(a: string, b: string)
    requires ColonFree(a)
    ensures Cut(a + ":" + b) == Some(Halves(a, b))
  {
    var s := a + ":" + b;
    if a == "" {
      assert s[1..] == b;
    } else {
      assert s[0] == a[0] && s[1..] == a[1..] + ":" + b;
      CutFirst(a[1..], b);
      assert a == [a[0]] + a[1..];
    }
  }

  lemma {:induction false} CutParts(s: string)
    ensures Cut(s).None? <==> ColonFree(s)
    ensures Cut(s).Some? ==> ColonFree(Cut(s).value.head) && s == Cut(s).value.head + ":" + Cut(s).value.tail
  {
    if s != "" {
      CutParts(s[1..]);
      assert s == [s[0]] + s[1..];
    }
  }

  /** The part of a name before its first colon. */
  function FirstPart(s: string): string {
    if Cut(s).Some? then Cut(s).value.head else s
  }

  /** A name with a colon is read as the part before it, and the part up to the next colon is
      taken for the difficulty, whatever was mined: a share of "a:100" counts 100 for "a", and
      one of "a:b" is skipped. */
  lemma ColonNameReads(codec: Codec, a: string, b: string, diffText: string, seqNo: nat)
    requires ColonFree(a)
    ensures Read(codec, Print(a + ":" + b, diffText, seqNo))
            == match codec.parse(FirstPart(b)) case None => None case Some(d) => Some(Reading(a, d))
  {
    hide Cut;
    var rest := b + ":" + diffText + ":" + BlockText.FormatInt(seqNo);
    assert Print(a + ":" + b, diffText, seqNo) == a + ":" + rest;
    CutFirst(a, rest);
    CutParts(b);
    if Cut(b).None? {
      assert rest == b + ":" + (diffText + ":" + BlockText.FormatInt(seqNo));
      CutFirst(b, diffText + ":" + BlockText.FormatInt(seqNo));
    } else {
      var halves := Cut(b).value;
      var after := halves.tail + ":" + diffText + ":" + BlockText.FormatInt(seqNo);
      assert rest == halves.head + ":" + after;
      CutFirst(halves.head, after);
    }
  }

  /** Two names with a colon: one whose second part is a number, one whose second part is not. */
  lemma ColonNames(codec: Codec, diffText: string, seqNo: nat)
    requires codec.parse("100") == Some(100.0) && codec.parse("b") == None
    ensures Read(codec, Print("a:100", diffText, seqNo)) == Some(Reading("a", 100.0))
    ensures Read(codec, Print("a:b", diffText, seqNo)) == None
  {
    hide Read, Print;
    CutParts("100");
    CutParts("b");
    assert "a" + ":" + "100" == "a:100" && "a" + ":" + "b" == "a:b";
    ColonNameReads(codec, "a", "100", diffText, seqNo);
    ColonNameReads(codec, "a", "b", diffText, seqNo);
  }

  /** A share is read back as it was logged exactly when the miner's name has no colon. */
  lemma ReadsBack(codec: Codec, miner: Miner, diff: real, seqNo: nat)
    requires Writable(codec, diff)
    ensures Read(codec, Print(miner, codec.format(diff), seqNo)) == Some(Reading(miner, diff)) <==> ColonFree(miner)
  {
    var text := codec.format(diff);
    CutParts(miner);
    hide Cut;
    if ColonFree(miner) {
      var rest := text + ":" + BlockText.FormatInt(seqNo);
      assert Print(miner, text, seqNo) == miner + ":" + rest;
      CutFirst(miner, rest);
      CutFirst(text, BlockText.FormatInt(seqNo));
    } else {
      var halves := Cut(miner).value;
      ColonNameReads(codec, halves.head, halves.tail, text, seqNo);
      assert |halves.head| < |miner|;
    }
  }

  // ------------------------------------------------------------------
  // The log
  // ------------------------------------------------------------------

  /** The shares that the readers see. */
  function Entries(codec: Codec, log: seq<Member>): seq<Entry> {
    if log == [] then []
    else
      (match Read(codec, log[0].text)
       case None => []
       case Some(r) => [Entry(r.miner, r.diff, log[0].score)])
      + Entries(codec, log[1..])
  }

  /** Members with score at most s, in score order. */
  function UpToScore(log: seq<Member>, s: int): seq<Member> {
    if log == [] then []
    else (if log[0].score <= s then [log[0]] else []) + UpToScore(log[1..], s)
  }

  function AboveScore(log: seq<Member>, s: int): seq<Member> {
    if log == [] then []
    else (if log[0].score > s then [log[0]] else []) + AboveScore(log[1..], s)
  }

  /** ZADD: members stay in score order; an existing one is left alone. */
  function ZAddMember(log: seq<Member>, m: Member): seq<Member> {
    if m in log then log else UpToScore(log, m.score) + [m] + AboveScore(log, m.score)
  }

  /** ZREMRANGEBYRANK 0 -(cap+1). */
  function KeepNewestMembers(log: seq<Member>, cap: nat): seq<Member> {
    if |log| <= cap then log else log[|log| - cap..]
  }

  function MemberOf(codec: Codec, e: Entry): Member {
    Member(e.seqNo, Print(e.miner, codec.format(e.diff), e.seqNo))
  }

  /** The member reads back as the share it was written for. */
  predicate Clean(codec: Codec, m: Member) {
    match Read(codec, m.text)
    case None => false
    case Some(r) => m == MemberOf(codec, Entry(r.miner, r.diff, m.score))
  }

  predicate CleanLog(codec: Codec, log: seq<Member>) {
    forall m | m in log :: Clean(codec, m)
  }

  lemma {:induction false} EntriesConcat(codec: Codec, a: seq<Member>, b: seq<Member>)
    ensures Entries(codec, a + b) == Entries(codec, a) + Entries(codec, b)
  {
    hide Read;
    if a == [] {
      assert a + b == b;
    } else {
      assert (a + b)[0] == a[0] && (a + b)[1..] == a[1..] + b;
      EntriesConcat(codec, a[1..], b);
    }
  }

  /** Selecting by score and reading commute. */
  lemma {:induction false} EntriesSelected(codec: Codec, log: seq<Member>, s: int)
    ensures Entries(codec, UpToScore(log, s)) == UpTo(Entries(codec, log), s)
    ensures Entries(codec, AboveScore(log, s)) == After(Entries(codec, log), s)
  {
    hide Read;
    if log != [] {
      var first, rest := [log[0]], log[1..];
      EntriesSelected(codec, rest, s);
      OneSelected(codec, log[0], s);
      assert log == first + rest;
      EntriesConcat(codec, first, rest);
      UpToConcat(Entries(codec, first), Entries(codec, rest), s);
      AfterConcat(Entries(codec, first), Entries(codec, rest), s);
      EntriesConcat(codec, if log[0].score <= s then first else [], UpToScore(rest, s));
      EntriesConcat(codec, if log[0].score > s then first else [], AboveScore(rest, s));
    }
  }

  lemma OneSelected(codec: Codec, m: Member, s: int)
    ensures UpTo(Entries(codec, [m]), s) == if m.score <= s then Entries(codec, [m]) else []
    ensures After(Entries(codec, [m]), s) == if m.score > s then Entries(codec, [m]) else []
  {
    hide Read;
    assert [m][1..] == [];
  }

  /** A clean log has one entry per member, and the entry tells the member. */
  lemma {:induction false} CleanEntries(codec: Codec, log: seq<Member>)
    requires CleanLog(codec, log)
    ensures |Entries(codec, log)| == |log|
    ensures forall i | 0 <= i < |log| :: MemberOf(codec, Entries(codec, log)[i]) == log[i]
  {
    hide Read, MemberOf;
    if log != [] {
      assert Clean(codec, log[0]);
      assert forall m | m in log[1..] :: m in log;
      CleanEntries(codec, log[1..]);
    }
  }

  lemma CleanMember(codec: Codec, e: Entry)
    requires ColonFree(e.miner) && Writable(codec, e.diff)
    ensures Clean(codec, MemberOf(codec, e)) && Entries(codec, [MemberOf(codec, e)]) == [e]
  {
    ReadsBack(codec, e.miner, e.diff, e.seqNo);
    hide Read, Print;
    assert [MemberOf(codec, e)][1..] == [];
  }

  lemma {:induction false} SelectedIn(log: seq<Member>, s: int)
    ensures forall m | m in UpToScore(log, s) || m in AboveScore(log, s) :: m in log
  {
    if log != [] {
      SelectedIn(log[1..], s);
      assert log == [log[0]] + log[1..];
    }
  }

  /** Logging a share of a name without colons logs that share. */
  lemma LogsEntry(codec: Codec, log: seq<Member>, e: Entry)
    requires CleanLog(codec, log) && ColonFree(e.miner) && Writable(codec, e.diff)
    ensures CleanLog(codec, ZAddMember(log, MemberOf(codec, e)))
    ensures Entries(codec, ZAddMember(log, MemberOf(codec, e))) == ZAdd(Entries(codec, log), e)
  {
    var m := MemberOf(codec, e);
    CleanMember(codec, e);
    CleanEntries(codec, log);
    SelectedIn(log, m.score);
    SameMember(codec, log, e);
    hide MemberOf, Clean, UpToScore, AboveScore, Entries, UpTo, After;
    if m !in log {
      EntriesSelected(codec, log, m.score);
      EntriesConcat(codec, UpToScore(log, m.score) + [m], AboveScore(log, m.score));
      EntriesConcat(codec, UpToScore(log, m.score), [m]);
      assert m.score == e.seqNo by { ScoreOf(codec, e); }
    }
  }

  lemma ScoreOf(codec: Codec, e: Entry)
    ensures MemberOf(codec, e).score == e.seqNo
  {
  }

  lemma SameMember(codec: Codec, log: seq<Member>, e: Entry)
    requires CleanLog(codec, log) && ColonFree(e.miner) && Writable(codec, e.diff)
    ensures MemberOf(codec, e) in log <==> e in Entries(codec, log)
  {
    var m, es := MemberOf(codec, e), Entries(codec, log);
    CleanEntries(codec, log);
    ReadsBack(codec, e.miner, e.diff, e.seqNo);
    hide Read, Print, Entries;
    if e in es {
      var i :| 0 <= i < |es| && es[i] == e;
      assert log[i] == m;
    }
    if m in log {
      var i :| 0 <= i < |log| && log[i] == m;
      EntryOfMember(codec, log, i);
    }
  }

  lemma {:induction false} EntryOfMember(codec: Codec, log: seq<Member>, i: nat)
    requires CleanLog(codec, log) && i < |log|
    ensures i < |Entries(codec, log)| && Read(codec, log[i].text).Some?
    ensures
      var r := Read(codec, log[i].text).value;
      Entries(codec, log)[i] == Entry(r.miner, r.diff, log[i].score)
  {
    hide Read, MemberOf;
    assert Clean(codec, log[0]);
    if i > 0 {
      assert forall m | m in log[1..] :: m in log;
      EntryOfMember(codec, log[1..], i - 1);
    }
  }

  lemma KeepsNewest(codec: Codec, log: seq<Member>, cap: nat)
    requires CleanLog(codec, log)
    ensures CleanLog(codec, KeepNewestMembers(log, cap))
    ensures Entries(codec, KeepNewestMembers(log, cap)) == KeepNewest(Entries(codec, log), cap)
  {
    CleanEntries(codec, log);
    if |log| > cap {
      var d := |log| - cap;
      assert log == log[..d] + log[d..];
      assert CleanLog(codec, log[..d]);
      CleanEntries(codec, log[..d]);
      hide Entries, Clean;
      EntriesConcat(codec, log[..d], log[d..]);
    }
  }

  lemma DropsCredited(codec: Codec, log: seq<Member>, s: int)
    requires CleanLog(codec, log)
    ensures CleanLog(codec, AboveScore(log, s))
  {
    SelectedIn(log, s);
  }
}
