/** The CryptoNote engine's jobs (engine/cryptonote/engine.go): what miners hash is the
    hashing blob of what is submitted. */
module CryptonoteEngine {
  import opened ByteStrings
  import opened Prelude
  import opened Varint
  import opened TreeHashing
  import opened BlockBlob
  import opened HashingBlob
  import opened Pow
  import Hex

  datatype Template = Template(
    blobHex: string, reservedOffset: int, seedHex: string, height: int, difficulty: nat, prevHash: string)

  datatype Submit = Submit(jobId: nat, nonceText: string, resultText: string)

  datatype ErrorCode = NoError | IncorrectNonceSize | JobNotFound | DuplicateShare | LowDiffShare

  datatype Share = Share(diff: real, code: ErrorCode, blockHex: string, blockHash: string)

  /** A block handed to the node: the blob, the seed and RandomX result, and the difficulty
      the template asked for. */
  datatype Candidate = Candidate(blob: Bytes, seed: Bytes, hash: Bytes, diff: nat)

  type RandomX = (Bytes, Bytes) -> Option<Bytes>

  /** The result is the hash of the candidate's own hashing blob and meets the network
      difficulty. */
  ghost predicate Genuine(keccak: Keccak, pow: RandomX, c: Candidate) {
    && Parse(c.blob).Ok?
    && Parse(c.blob).value.headerEnd <= |c.blob| && Parse(c.blob).value.minerTxEnd <= |c.blob|
    && Hashing(keccak, c.blob, Parse(c.blob).value).Ok?
    && pow(c.seed, Hashing(keccak, c.blob, Parse(c.blob).value).value) == Some(c.hash)
    && c.diff > 0 && DiffFromValue(TWO_TO_THE_256, FromLE(c.hash)) >= c.diff as real
  }

  class Job {
    const id: nat
    const blob: Bytes
    const hashing: Bytes
    const nonceOff: nat
    const seed: Bytes
    const height: int
    const diff: nat
    const prevHash: string
    var seen: set<string>
    /** Every nonce of the job that was ever hashed. */
    ghost var hashed: set<Bytes>

    constructor (id: nat, blob: Bytes, hashing: Bytes, nonceOff: nat, seed: Bytes, t: Template)
      ensures this.id == id && this.blob == blob && this.hashing == hashing && this.nonceOff == nonceOff
      ensures this.seed == seed && diff == t.difficulty && height == t.height && prevHash == t.prevHash
      ensures seen == {} && hashed == {}
    {
      this.id, this.blob, this.hashing, this.nonceOff, this.seed := id, blob, hashing, nonceOff, seed;
      height, diff, prevHash, seen, hashed := t.height, t.difficulty, t.prevHash, {}, {};
    }

    /** hashing and nonceOff belong to blob. */
    ghost predicate Paired(keccak: Keccak) {
      && Parse(blob).Ok? && nonceOff == Parse(blob).value.nonceOffset
      && Parse(blob).value.headerEnd <= |blob| && Parse(blob).value.minerTxEnd <= |blob|
      && Hashing(keccak, blob, Parse(blob).value) == Ok(hashing)
    }

    ghost predicate Remembers()
      reads this
    {
      forall n | n in hashed :: Hex.Encode(n) in seen
    }
  }

  /** At most eight jobs, each filed under its id, each with its own hashing blob. */
  ghost predicate JobsOk(keccak: Keccak, history: map<nat, Job>, counter: nat) {
    |history| <= 8 && forall i | i in history :: history[i].id == i && 0 < i <= counter && history[i].Paired(keccak)
  }

  /** The new job is in, and nothing else is new; with room to spare, nothing was dropped. */
  ghost predicate Grown(before: map<nat, Job>, after: map<nat, Job>, j: Job) {
    && j.id in after && after[j.id] == j && after.Keys <= before.Keys + {j.id}
    && (forall i | i in after && i != j.id :: after[i] == before[i])
    && (|before| < 8 ==> after.Keys == before.Keys + {j.id})
  }

  ghost predicate AllGenuine(keccak: Keccak, pow: RandomX, submitted: seq<Candidate>) {
    forall c | c in submitted :: Genuine(keccak, pow, c)
  }

  /** How a share of job j was judged. Hashed is at most one nonce, never one hashed before; a
      share with a difficulty was hashed to the result it claims, is accepted when it meets the
      assigned difficulty, and exactly when it meets the network's too, the block with that nonce is submitted. */
  ghost predicate Checked(
    pow: RandomX, j: Job, hashed0: set<Bytes>, hashed: set<Bytes>,
    submitted0: seq<Candidate>, submitted: seq<Candidate>, difficulty: real, share: Share,
    resultText: string, nonce: Bytes)
  {
    && (hashed == hashed0 || (hashed == hashed0 + {nonce} && nonce !in hashed0))
    && (share.code !in {NoError, LowDiffShare} ==> submitted == submitted0)
    && (share.code in {NoError, LowDiffShare} ==>
          && hashed == hashed0 + {nonce} && nonce !in hashed0 && |nonce| == 4
          && j.nonceOff + 4 <= |j.hashing| && j.nonceOff + 4 <= |j.blob|
          && HashedAs(pow, j, submitted0, submitted, difficulty, share, resultText, nonce))
  }

  ghost predicate HashedAs(
    pow: RandomX, j: Job, submitted0: seq<Candidate>, submitted: seq<Candidate>, difficulty: real, share: Share,
    resultText: string, nonce: Bytes)
    requires j.nonceOff + 4 <= |j.hashing| && j.nonceOff + 4 <= |j.blob|
  {
    var hash := pow(j.seed, WithNonce(j.hashing, j.nonceOff, nonce));
    && hash.Some? && Hex.Decode(resultText) == hash && share.diff == DiffFromValue(TWO_TO_THE_256, FromLE(hash.value))
    && (share.code == NoError <==> share.diff >= difficulty)
    && submitted == (if share.code == NoError && j.diff > 0 && share.diff >= j.diff as real
                     then submitted0 + [Candidate(WithNonce(j.blob, j.nonceOff, nonce), j.seed, hash.value, j.diff)]
                     else submitted0)
  }

  /** Text of a four-byte nonce and of a result, not seen before. */
  predicate WellFormedShare(nonceText: string, resultText: string) {
    var nonce := Hex.Decode(Hex.Lower(TrimPrefix(nonceText)));
    nonce.Some? && |nonce.value| == 4 && |resultText| == 64
  }

  predicate Fresh(seen: set<string>, nonceText: string, resultText: string) {
    WellFormedShare(nonceText, resultText) && Hex.Lower(TrimPrefix(nonceText)) !in seen
  }

  /** What a share of job j deserves. */
  function Verdict(pow: RandomX, j: Job, seen: set<string>, nonceText: string, resultText: string,
                   difficulty: real): ErrorCode {
    if !WellFormedShare(nonceText, resultText) then IncorrectNonceSize
    else if !Fresh(seen, nonceText, resultText) then DuplicateShare
    else if j.nonceOff + 4 > |j.hashing| then JobNotFound // cannot happen for a paired job
    else
      match pow(j.seed, WithNonce(j.hashing, j.nonceOff, Hex.Decode(Hex.Lower(TrimPrefix(nonceText))).value))
      case None => JobNotFound
      case Some(hash) =>
        if Hex.Encode(hash) != Hex.Lower(resultText) then IncorrectNonceSize
        else if DiffFromValue(TWO_TO_THE_256, FromLE(hash)) < difficulty then LowDiffShare
        else NoError
  }

  /** A claimed result is the hash exactly when its text is hex for it, in either case. */
  lemma ResultMatches(hash: Bytes, resultText: string)
    ensures Hex.Encode(hash) == Hex.Lower(resultText) <==> Hex.Decode(resultText) == Some(hash)
  {
    Hex.LowerKeepsBytes(resultText);
    Hex.LowerIsLower(resultText);
    Hex.DecodeEncode(hash);
    if Hex.Decode(resultText) == Some(hash) { Hex.LowerHexIsEncoded(Hex.Lower(resultText)); }
  }

  /** The share is well formed and new, and the job's hashing blob with its nonce hashes to the
      result that it claims. */
  ghost predicate Proves(pow: RandomX, j: Job, seen: set<string>, nonceText: string, resultText: string, hash: Bytes) {
    exists nonce ::
      && Hex.Decode(TrimPrefix(nonceText)) == Some(nonce) && |nonce| == 4 && Hex.Encode(nonce) !in seen
      && j.nonceOff + 4 <= |j.hashing| && pow(j.seed, WithNonce(j.hashing, j.nonceOff, nonce)) == Some(hash)
      && |resultText| == 64 && Hex.Decode(resultText) == Some(hash)
  }

  /** A share is accepted, or refused only for its difficulty, exactly if it proves a hash; then
      the difficulty that the hash represents decides. */
  lemma VerdictMeans(pow: RandomX, j: Job, seen: set<string>, nonceText: string, resultText: string, difficulty: real)
    ensures
      var code := Verdict(pow, j, seen, nonceText, resultText, difficulty);
      && (code == NoError <==>
            exists hash :: Proves(pow, j, seen, nonceText, resultText, hash)
                           && DiffFromValue(TWO_TO_THE_256, FromLE(hash)) >= difficulty)
      && (code == LowDiffShare <==>
            exists hash :: Proves(pow, j, seen, nonceText, resultText, hash)
                           && DiffFromValue(TWO_TO_THE_256, FromLE(hash)) < difficulty)
  {
    hide Hex.Decode, Hex.Encode, Hex.Lower, TrimPrefix, WithNonce, DiffFromValue, FromLE;
    var text := TrimPrefix(nonceText);
    Hex.LowerKeepsBytes(text);
    Hex.LowerIsLower(text);
    var nonce := Hex.Decode(text);
    if nonce.Some? {
      Hex.LowerHexIsEncoded(Hex.Lower(text));
      assert Hex.Lower(text) == Hex.Encode(nonce.value);
      if j.nonceOff + 4 <= |j.hashing| && |nonce.value| == 4 {
        var hash := pow(j.seed, WithNonce(j.hashing, j.nonceOff, nonce.value));
        if hash.Some? {
          ResultMatches(hash.value, resultText);
          assert |resultText| == 64 && Hex.Decode(resultText) == hash && Hex.Encode(nonce.value) !in seen ==>
              Proves(pow, j, seen, nonceText, resultText, hash.value);
        }
      }
    }
  }

  /** A nonce may be written with a 0x in front. */
  lemma TrimPrefixIs(s: string)
    ensures TrimPrefix("0x" + s) == s && (s[..if |s| < 2 then 0 else 2] != "0x" ==> TrimPrefix(s) == s)
  {
  }

  /** What a job's miners hash is what the block in its blob is hashed as. */
  lemma JobHashesBlock(keccak: Keccak, j: Job) returns (r: RawBlock)
    requires j.Paired(keccak) && |j.blob| < TWO_TO_THE_63 && !LeadsBack(j.blob)
    ensures WellFormed(r) && Print(r) == j.blob && j.hashing == BlockHashed(keccak, r)
    ensures j.nonceOff + 4 == |PrintHeader(r)|
  {
    r := ParsedIsPrinted(j.blob);
    HashesBlock(keccak, r);
  }

  /** Every block handed to the node hashes to what its difficulty was taken from. */
  lemma GenuineIsBlock(keccak: Keccak, pow: RandomX, c: Candidate) returns (r: RawBlock)
    requires Genuine(keccak, pow, c) && |c.blob| < TWO_TO_THE_63 && !LeadsBack(c.blob)
    ensures WellFormed(r) && Print(r) == c.blob && pow(c.seed, BlockHashed(keccak, r)) == Some(c.hash)
    ensures DiffFromValue(TWO_TO_THE_256, FromLE(c.hash)) >= c.diff as real > 0.0
  {
    r := ParsedIsPrinted(c.blob);
    HashesBlock(keccak, r);
  }

  /** The reserved bytes hold the job's number, the others are the template's. */
  lemma ExtranonceInPlace(t: Template, counter: nat)
    requires WithExtranonce(t, counter).Some? && counter < TWO_TO_THE_64
    ensures Hex.Decode(t.blobHex).Some?
    ensures
      var before, after := Hex.Decode(t.blobHex).value, WithExtranonce(t, counter).value;
      var at := t.reservedOffset;
      && 0 < at && at + 8 <= |before| == |after|
      && after[..at] == before[..at] && after[at + 8..] == before[at + 8..]
      && FromLE(after[at..at + 8]) == counter
  {
    hide Hex.Decode, ToLE, FromLE;
    Powers256();
    LittleEndianRoundTrip(counter, 8);
    assert WithExtranonce(t, counter).value[t.reservedOffset..t.reservedOffset + 8] == ToLE(counter, 8);
  }

  class Engine {
    const keccak: Keccak
    const pow: RandomX
    var jobCounter: nat
    var cur: Job?
    var history: map<nat, Job>
    /** Every block ever handed to the node. */
    ghost var submitted: seq<Candidate>

    ghost predicate Valid()
      reads this
    {
      && JobsOk(keccak, history, jobCounter) && AllGenuine(keccak, pow, submitted)
      && (if cur == null then history == map[] else cur.id in history && history[cur.id] == cur)
    }

    constructor (keccak: Keccak, pow: RandomX)
      ensures Valid() && history == map[] && submitted == [] && this.keccak == keccak && this.pow == pow
    {
      this.keccak, this.pow, jobCounter, cur, history, submitted := keccak, pow, 0, null, map[], [];
    }

    /** acceptTemplate. Err stands for a refused template, Panic for one that cannot be sliced;
        either way the current job stays. */
    method AcceptTemplate(t: Template) returns (r: Result<Job>)
      requires Valid()
      modifies this
      ensures Valid() && submitted == old(submitted) && jobCounter == old(jobCounter) + 1
      ensures r.Ok? <==> Usable(t, jobCounter)
      ensures !r.Ok? ==> cur == old(cur) && history == old(history)
      ensures r.Ok? ==>
                && fresh(r.value) && cur == r.value && cur.id == jobCounter && cur.seen == {} && cur.hashed == {}
                && WithExtranonce(t, jobCounter) == Some(cur.blob) && Hex.Decode(t.seedHex) == Some(cur.seed)
                && cur.diff == t.difficulty && cur.height == t.height && cur.prevHash == t.prevHash
                && Grown(old(history), history, cur)
    {
      hide JobsOk, AllGenuine, Usable, WithExtranonce, Grown;
      jobCounter := jobCounter + 1;
      r := PrepareJob(t, jobCounter);
      if !r.Ok? {
        MoreIds(keccak, history, jobCounter - 1);
        return;
      }
      Install(r.value);
    }

    method Install(j: Job)
      requires j.id == jobCounter > 0 && j.Paired(keccak) && JobsOk(keccak, history, jobCounter - 1)
      modifies this`cur, this`history
      ensures cur == j && JobsOk(keccak, history, jobCounter) && Grown(old(history), history, j)
      ensures j.id in history && history[j.id] == j
    {
      hide JobsOk, Grown, Job.Paired;
      cur := j;
      Filed(keccak, history, jobCounter - 1, j);
      history := Evict(history[j.id := j], j.id);
      FewerJobs(keccak, old(history), j, history, jobCounter);
    }

    /** Decode the template, put the extranonce in and rebuild the hashing blob. */
    method PrepareJob(t: Template, id: nat) returns (r: Result<Job>)
      ensures r.Ok? <==> Usable(t, id)
      ensures r.Ok? ==>
                && fresh(r.value) && r.value.id == id && r.value.seen == {} && r.value.hashed == {}
                && r.value.Paired(keccak) && WithExtranonce(t, id) == Some(r.value.blob)
                && Hex.Decode(t.seedHex) == Some(r.value.seed)
                && r.value.diff == t.difficulty && r.value.height == t.height && r.value.prevHash == t.prevHash
    {
      hide Parse, Hashing, Sliceable, Hex.Decode;
      var decoded := Hex.Decode(t.blobHex);
      if decoded == None {
        return Err(EndOfBlob);
      }
      var blob := decoded.value;
      var seed := Hex.Decode(t.seedHex);
      if seed == None || |seed.value| != 32 {
        return Err(EndOfBlob);
      }
      if t.reservedOffset <= 0 || t.reservedOffset + 8 > |blob| {
        return Err(EndOfBlob);
      }
      blob := blob[..t.reservedOffset] + ToLE(id, 8) + blob[t.reservedOffset + 8..];
      var p := ParseBlockBlob(blob);
      if !p.Ok? {
        return p.PropagateFailure();
      }
      SpansInside(blob);
      var hashing := BuildHashingBlob(keccak, blob, p.value);
      HashesWhenSliceable(keccak, blob, p.value);
      if !hashing.Ok? {
        return hashing.PropagateFailure();
      }
      var j := new Job(id, blob, hashing.value, p.value.nonceOffset, seed.value, t);
      return Ok(j);
    }

    /** Every job remembers the nonces it hashed. */
    ghost predicate AllRemember()
      reads this, history.Values
    {
      forall i | i in history :: history[i].Remembers()
    }

    /** OnSubmit: find the job, then check the share. A malformed request is None. */
    method OnSubmit(params: Option<Submit>, difficulty: real, nodeAccepts: Bytes -> bool)
      returns (share: Share, ghost nonce: Bytes)
      requires Valid() && AllRemember()
      modifies this`submitted, history.Values
      ensures Valid() && AllRemember()
      ensures params == None ==> share.code == IncorrectNonceSize && submitted == old(submitted)
      ensures params.Some? && params.value.jobId !in history ==>
              share.code == JobNotFound && submitted == old(submitted)
      ensures params.Some? && params.value.jobId in history ==>
                var j := history[params.value.jobId];
                && Checked(pow, j, old(j.hashed), j.hashed, old(submitted), submitted, difficulty, share,
                           params.value.resultText, nonce)
                && share.code
                     == Verdict(pow, j, old(j.seen), params.value.nonceText, params.value.resultText, difficulty)
    {
      hide JobsOk, AllGenuine, Checked, Verdict;
      nonce := [];
      if params == None {
        return Share(0.0, IncorrectNonceSize, "", ""), nonce;
      }
      var Submit(jobId, nonceText, resultText) := params.value;
      if jobId !in history {
        return Share(0.0, JobNotFound, "", ""), nonce;
      }
      var j := history[jobId];
      JobPaired(keccak, history, jobCounter, jobId);
      share, nonce := CheckShare(j, nonceText, resultText, difficulty, nodeAccepts);
    }

    /** The share of a known job. nonce is what was hashed, if anything was: never a nonce the
        job hashed before. Exactly a share that meets both difficulties hands a block to the
        node, and the hash it was accepted for is that block's own. */
    method CheckShare(j: Job, nonceText: string, resultText: string, difficulty: real, nodeAccepts: Bytes -> bool)
      returns (share: Share, ghost nonce: Bytes)
      requires j.Paired(keccak) && j.Remembers() && AllGenuine(keccak, pow, submitted)
      modifies this`submitted, j
      ensures j.Remembers() && AllGenuine(keccak, pow, submitted)
      ensures Checked(pow, j, old(j.hashed), j.hashed, old(submitted), submitted, difficulty, share, resultText, nonce)
      ensures share.code == Verdict(pow, j, old(j.seen), nonceText, resultText, difficulty)
      ensures j.seen == if Fresh(old(j.seen), nonceText, resultText)
              then old(j.seen) + {Hex.Lower(TrimPrefix(nonceText))} else old(j.seen)
      ensures Fresh(old(j.seen), nonceText, resultText) ==>
              j.hashed == old(j.hashed) + {Hex.Decode(Hex.Lower(TrimPrefix(nonceText))).value}
      ensures share.blockHash == if submitted != old(submitted) && nodeAccepts(submitted[|submitted| - 1].blob)
                                 then Hex.Lower(resultText) else ""
      ensures share.blockHex == if submitted != old(submitted) && nodeAccepts(submitted[|submitted| - 1].blob)
                                then Hex.Encode(submitted[|submitted| - 1].blob) else ""
    {
      hide Parse, Hashing, Hex.Decode, Hex.Encode, Hex.Lower, AllGenuine, DiffFromValue, WithNonce;
      nonce := [];
      Hex.LowerIsLower(TrimPrefix(nonceText));
      var nonceHex, resultHex := Hex.Lower(TrimPrefix(nonceText)), Hex.Lower(resultText);
      var decoded := Hex.Decode(nonceHex);
      if decoded == None || |decoded.value| != 4 || |resultHex| != 64 {
        return Share(0.0, IncorrectNonceSize, "", ""), nonce;
      }
      if nonceHex in j.seen {
        return Share(0.0, DuplicateShare, "", ""), nonce;
      }
      nonce := decoded.value;
      NewNonce(j, nonceHex);
      j.seen := j.seen + {nonceHex};
      j.hashed := j.hashed + {nonce};
      NonceCommutes(keccak, j.blob, decoded.value);
      var input := WithNonce(j.hashing, j.nonceOff, decoded.value);
      var hash := pow(j.seed, input);
      if hash == None {
        return Share(0.0, JobNotFound, "", ""), nonce;
      }
      ResultMatches(hash.value, resultText);
      if Hex.Encode(hash.value) != resultHex {
        return Share(0.0, IncorrectNonceSize, "", ""), nonce;
      }
      // the hash bytes are a little-endian number
      var diff := DiffFromValue(TWO_TO_THE_256, FromLE(hash.value));
      if diff < difficulty {
        return Share(diff, LowDiffShare, "", ""), nonce;
      }
      share := Share(diff, NoError, "", "");
      if j.diff > 0 && diff >= j.diff as real {
        var blockBlob := WithNonce(j.blob, j.nonceOff, decoded.value);
        ghost var c := Candidate(blockBlob, j.seed, hash.value, j.diff);
        OneMore(keccak, pow, submitted, c, input);
        submitted := submitted + [c];
        if nodeAccepts(blockBlob) {
          share := Share(diff, NoError, Hex.Encode(blockBlob), resultHex);
        }
      }
    }
  }

  /** Of more than eight jobs, drop others than the given one. */
  method Evict(history0: map<nat, Job>, keep: nat) returns (history: map<nat, Job>)
    requires keep in history0 && |history0| <= 9
    ensures keep in history && history.Keys <= history0.Keys && |history| <= 8
    ensures forall i | i in history :: history[i] == history0[i]
    ensures |history0| <= 8 ==> history == history0
  {
    history := history0;
    if |history| > 8 {
      var todo := history.Keys;
      assert |todo - {keep}| == |todo| - 1;
      while todo != {}
        invariant todo <= history0.Keys && keep in history && history.Keys <= history0.Keys
        invariant forall i | i in history :: history[i] == history0[i]
        invariant |history| <= 9 && (|history| > 8 ==> todo - {keep} != {} && history == history0)
        decreases |todo|
      {
        var k :| k in todo;
        if k != keep && |history| > 8 {
          assert history.Keys - {k} == (history - {k}).Keys;
          history := history - {k};
        }
        todo := todo - {k};
      }
    }
  }

  /** The template's blob with the pool's extranonce in its reserved place. */
  function WithExtranonce(t: Template, counter: nat): Option<Bytes> {
    var decoded := Hex.Decode(t.blobHex);
    if decoded == None || t.reservedOffset <= 0 || t.reservedOffset + 8 > |decoded.value| then None
    else
      var blob := decoded.value;
      Some(blob[..t.reservedOffset] + ToLE(counter, 8) + blob[t.reservedOffset + 8..])
  }

  /** The templates a job is made of. */
  predicate Usable(t: Template, counter: nat) {
    var blob, seed := WithExtranonce(t, counter), Hex.Decode(t.seedHex);
    blob.Some? && seed.Some? && |seed.value| == 32 && Parse(blob.value).Ok? && Sliceable(Parse(blob.value).value)
  }

  lemma HashesWhenSliceable(keccak: Keccak, b: Bytes, p: Spans)
    requires p.headerEnd <= |b| && p.minerTxEnd <= |b|
    ensures Hashing(keccak, b, p).Ok? <==> Sliceable(p)
  {
  }

  lemma MoreIds(keccak: Keccak, history: map<nat, Job>, counter: nat)
    requires JobsOk(keccak, history, counter)
    ensures JobsOk(keccak, history, counter + 1)
  {
  }

  ghost predicate AtMostOneOver(keccak: Keccak, history: map<nat, Job>, counter: nat) {
    |history| <= 9 && forall i | i in history :: history[i].id == i && 0 < i <= counter && history[i].Paired(keccak)
  }

  lemma Filed(keccak: Keccak, history: map<nat, Job>, counter: nat, j: Job)
    requires JobsOk(keccak, history, counter) && j.id == counter + 1 && j.Paired(keccak)
    ensures AtMostOneOver(keccak, history[j.id := j], counter + 1)
    ensures |history| < 8 ==> |history[j.id := j]| <= 8
  {
    hide Job.Paired;
    assert history[j.id := j].Keys == history.Keys + {j.id};
  }

  lemma FewerJobs(keccak: Keccak, before: map<nat, Job>, j: Job, history: map<nat, Job>, counter: nat)
    requires AtMostOneOver(keccak, before[j.id := j], counter) && |history| <= 8
    requires j.id in history && history.Keys <= before[j.id := j].Keys
    requires forall i | i in history :: history[i] == before[j.id := j][i]
    requires |before| < 8 ==> history == before[j.id := j]
    ensures JobsOk(keccak, history, counter) && Grown(before, history, j)
  {
  }

  function TrimPrefix(s: string): string {
    if |s| >= 2 && s[..2] == "0x" then s[2..] else s
  }

  lemma JobPaired(keccak: Keccak, history: map<nat, Job>, counter: nat, id: nat)
    requires JobsOk(keccak, history, counter) && id in history
    ensures history[id].Paired(keccak)
  {
  }

  /** Text that was not seen stands for a nonce that was not hashed. */
  lemma NewNonce(j: Job, text: string)
    requires j.Remembers() && Hex.IsLower(text) && Hex.Decode(text).Some? && text !in j.seen
    ensures text == Hex.Encode(Hex.Decode(text).value) && Hex.Decode(text).value !in j.hashed
  {
    hide Hex.Decode, Hex.Encode;
    Hex.LowerHexIsEncoded(text);
  }

  /** One more genuine block: the blob parses as the job's does, and its hashing blob is what
      was hashed. */
  lemma OneMore(keccak: Keccak, pow: RandomX, submitted: seq<Candidate>, c: Candidate, input: Bytes)
    requires AllGenuine(keccak, pow, submitted)
    requires Parse(c.blob).Ok? && Parse(c.blob).value.headerEnd <= |c.blob|
    requires Parse(c.blob).value.minerTxEnd <= |c.blob|
    requires Hashing(keccak, c.blob, Parse(c.blob).value) == Ok(input) && pow(c.seed, input) == Some(c.hash)
    requires c.diff > 0 && DiffFromValue(TWO_TO_THE_256, FromLE(c.hash)) >= c.diff as real
    ensures AllGenuine(keccak, pow, submitted + [c])
  {
    hide Parse, Hashing, DiffFromValue;
  }
}
