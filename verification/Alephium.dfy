/** Alephium's binary miner protocol (engine/alephium/alephium.go): frames, blobs and the Jobs
    message, against the documented encoding. */
module Alephium {
  import opened ByteStrings
  import opened Prelude
  import opened Packing

  const TWO_TO_THE_31: nat := 0x8000_0000
  const TWO_TO_THE_32: nat := 0x1_0000_0000
  const MAX_JOBS: nat := 4096
  const MAX_FRAME: nat := 0x200_0000 // 32 << 20
  const PROTOCOL_VERSION: byte := 1

  // ------------------------------------------------------------------
  // Big-endian numbers
  // ------------------------------------------------------------------

  function FromBE(b: Bytes): nat {
    FromLE(Reversed(b))
  }

  function Uint32(n: nat): (u: nat)
    ensures u < TWO_TO_THE_32
    ensures n < TWO_TO_THE_32 ==> u == n
  {
    n % TWO_TO_THE_32
  }

  /** uint32BE of a length: what does not fit is dropped. */
  function Uint32BE(n: nat): (b: Bytes)
    ensures |b| == 4
  {
    Reversed(ToLE(Uint32(n), 4))
  }

  /** An int32 holding the same bits. */
  function Int32(n: nat): int {
    if n < TWO_TO_THE_31 then n else n - TWO_TO_THE_32
  }

  type int32 = n: int | -0x8000_0000 <= n < 0x8000_0000
  type uint32 = n: int | 0 <= n < 0x1_0000_0000

  function Bits(n: int32): uint32 {
    if n >= 0 then n else n + TWO_TO_THE_32
  }

  /** The first byte is the most significant one. */
  lemma BigEndianIs(b: Bytes, last: byte)
    ensures FromBE([]) == 0 && FromBE(b + [last]) == FromBE(b) * 256 + last
  {
    var whole := Reversed(b + [last]);
    assert whole == [last] + Reversed(b);
    assert FromLE(whole) == whole[0] + 256 * FromLE(whole[1..]);
  }

  lemma BigEndianRoundTrip(n: nat)
    requires n < TWO_TO_THE_32
    ensures FromBE(Uint32BE(n)) == n
  {
    hide FromLE, ToLE, Reversed, Pow256, Uint32;
    Powers256();
    LittleEndianRoundTrip(n, 4);
    ReversedTwice(ToLE(n, 4));
  }

  lemma BigEndianInverse(b: Bytes)
    requires |b| == 4
    ensures FromBE(b) < TWO_TO_THE_32 && Uint32BE(FromBE(b)) == b
  {
    hide FromLE, ToLE, Reversed, Pow256, Uint32;
    Powers256();
    FromLEBound(Reversed(b));
    LittleEndianInverse(Reversed(b));
    ReversedTwice(b);
  }

  // ------------------------------------------------------------------
  // The encoding
  // ------------------------------------------------------------------

  /** blob(x): its length, then its bytes. */
  function PrintBlob(x: Bytes): Bytes {
    Uint32BE(|x|) + x
  }

  /** A job as it is sent; the target is a big-endian number of any length. */
  datatype RawJob = RawJob(
    fromGroup: uint32, toGroup: uint32, headerBlob: Bytes, txsBlob: Bytes, target: Bytes, height: int32)

  predicate RawOk(j: RawJob) {
    |j.headerBlob| < TWO_TO_THE_31 && |j.txsBlob| < TWO_TO_THE_31 && |j.target| < TWO_TO_THE_31
  }

  predicate RawsOk(js: seq<RawJob>) {
    forall i | 0 <= i < |js| :: RawOk(js[i])
  }

  function PrintJob(j: RawJob): Bytes {
    Uint32BE(j.fromGroup) + Uint32BE(j.toGroup) + PrintBlob(j.headerBlob) + PrintBlob(j.txsBlob)
    + PrintBlob(j.target) + Uint32BE(Bits(j.height))
  }

  function PrintJobList(js: seq<RawJob>): Bytes {
    if js == [] then [] else PrintJob(js[0]) + PrintJobList(js[1..])
  }

  /** The payload of a Jobs message. */
  function PrintJobs(js: seq<RawJob>): Bytes {
    Uint32BE(|js|) + PrintJobList(js)
  }

  // ------------------------------------------------------------------
  // Reading
  // ------------------------------------------------------------------

  datatype Parsed<+T> = Parsed(value: T, next: nat)

  function Int32At(b: Bytes, pos: nat): Option<Parsed<int32>> {
    if pos + 4 > |b| then None
    else
      BigEndianInverse(b[pos..pos + 4]);
      var v: int32 := Int32(FromBE(b[pos..pos + 4]));
      Some(Parsed(v, pos + 4))
  }

  function BlobAt(b: Bytes, pos: nat): Option<Parsed<Bytes>> {
    var n :- Int32At(b, pos);
    if n.value < 0 || n.next + n.value > |b| then None
    else Some(Parsed(b[n.next..n.next + n.value], n.next + n.value))
  }

  function JobAt(b: Bytes, pos: nat): Option<Parsed<RawJob>> {
    var fromGroup :- Int32At(b, pos);
    var toGroup :- Int32At(b, fromGroup.next);
    var headerBlob :- BlobAt(b, toGroup.next);
    var txsBlob :- BlobAt(b, headerBlob.next);
    var target :- BlobAt(b, txsBlob.next);
    var height :- Int32At(b, target.next);
    Some(Parsed(
      RawJob(Bits(fromGroup.value), Bits(toGroup.value), headerBlob.value, txsBlob.value, target.value, height.value),
      height.next))
  }

  function JobListAt(b: Bytes, pos: nat, n: nat): Option<Parsed<seq<RawJob>>>
    decreases n
  {
    if n == 0 then Some(Parsed([], pos))
    else
      var first :- JobAt(b, pos);
      var rest :- JobListAt(b, first.next, n - 1);
      Some(Parsed([first.value] + rest.value, rest.next))
  }

  function JobsAt(b: Bytes): Option<Parsed<seq<RawJob>>> {
    var count :- Int32At(b, 0);
    if count.value < 0 || count.value > MAX_JOBS then None else JobListAt(b, count.next, count.value)
  }

  // ------------------------------------------------------------------
  // Reading undoes printing
  // ------------------------------------------------------------------

  lemma Int32Reads(b: Bytes, pos: nat, n: int32)
    requires At(b, pos, Uint32BE(Bits(n)))
    ensures Int32At(b, pos) == Some(Parsed(n, pos + 4))
  {
    hide Uint32BE, FromBE;
    BigEndianRoundTrip(Bits(n));
  }

  lemma GroupReads(b: Bytes, pos: nat, n: uint32)
    requires At(b, pos, Uint32BE(n))
    ensures Int32At(b, pos).Some? && Bits(Int32At(b, pos).value.value) == n && Int32At(b, pos).value.next == pos + 4
  {
    hide Uint32BE, FromBE;
    BigEndianRoundTrip(n);
  }

  lemma BlobReads(b: Bytes, pos: nat, x: Bytes)
    requires |x| < TWO_TO_THE_31 && At(b, pos, PrintBlob(x))
    ensures BlobAt(b, pos) == Some(Parsed(x, pos + |PrintBlob(x)|))
  {
    hide At, Int32At, Uint32BE;
    AtConcat(b, pos, Uint32BE(|x|), x);
    Int32Reads(b, pos, |x|);
    AtSlice(b, pos + 4, x);
  }

  lemma JobReads(b: Bytes, pos: nat, j: RawJob)
    requires RawOk(j) && At(b, pos, PrintJob(j))
    ensures JobAt(b, pos) == Some(Parsed(j, pos + |PrintJob(j)|))
  {
    hide At, Int32At, BlobAt, Uint32BE, PrintBlob, Bits;
    var s1 := Uint32BE(j.fromGroup);
    var s2 := s1 + Uint32BE(j.toGroup);
    var s3 := s2 + PrintBlob(j.headerBlob);
    var s4 := s3 + PrintBlob(j.txsBlob);
    var s5 := s4 + PrintBlob(j.target);
    AtConcat(b, pos, s5, Uint32BE(Bits(j.height)));
    AtConcat(b, pos, s4, PrintBlob(j.target));
    AtConcat(b, pos, s3, PrintBlob(j.txsBlob));
    AtConcat(b, pos, s2, PrintBlob(j.headerBlob));
    AtConcat(b, pos, s1, Uint32BE(j.toGroup));
    GroupReads(b, pos, j.fromGroup);
    GroupReads(b, pos + 4, j.toGroup);
    BlobReads(b, pos + |s2|, j.headerBlob);
    BlobReads(b, pos + |s3|, j.txsBlob);
    BlobReads(b, pos + |s4|, j.target);
    Int32Reads(b, pos + |s5|, j.height);
  }

  lemma {:induction false} JobListReads(b: Bytes, pos: nat, js: seq<RawJob>)
    requires RawsOk(js) && At(b, pos, PrintJobList(js))
    ensures JobListAt(b, pos, |js|) == Some(Parsed(js, pos + |PrintJobList(js)|))
    decreases |js|
  {
    hide At, JobAt, PrintJob, RawOk;
    if js != [] {
      AtConcat(b, pos, PrintJob(js[0]), PrintJobList(js[1..]));
      JobReads(b, pos, js[0]);
      JobListReads(b, pos + |PrintJob(js[0])|, js[1..]);
      assert js == [js[0]] + js[1..];
    }
  }

  /** Every list of up to 4096 jobs is read back, whatever follows it. */
  lemma JobsRead(js: seq<RawJob>, after: Bytes)
    requires RawsOk(js) && |js| <= MAX_JOBS
    ensures JobsAt(PrintJobs(js) + after) == Some(Parsed(js, |PrintJobs(js)|))
  {
    hide At, Int32At, JobListAt, Uint32BE, PrintJobList, RawsOk;
    var b := PrintJobs(js) + after;
    AtWhole(b);
    AtConcat(b, 0, PrintJobs(js), after);
    AtConcat(b, 0, Uint32BE(|js|), PrintJobList(js));
    Int32Reads(b, 0, |js|);
    JobListReads(b, 4, js);
  }

  // ------------------------------------------------------------------
  // Only printed jobs are read
  // ------------------------------------------------------------------

  lemma Int32Printed(b: Bytes, pos: nat)
    requires Int32At(b, pos).Some?
    ensures At(b, pos, Uint32BE(Bits(Int32At(b, pos).value.value))) && Int32At(b, pos).value.next == pos + 4
  {
    hide Uint32BE, FromBE;
    BigEndianInverse(b[pos..pos + 4]);
  }

  lemma BlobPrinted(b: Bytes, pos: nat)
    requires BlobAt(b, pos).Some?
    ensures
      var x := BlobAt(b, pos).value;
      |x.value| < TWO_TO_THE_31 && At(b, pos, PrintBlob(x.value)) && x.next == pos + |PrintBlob(x.value)|
  {
    hide Int32At, Uint32BE;
    Int32Printed(b, pos);
    AtConcat(b, pos, Uint32BE(|BlobAt(b, pos).value.value|), BlobAt(b, pos).value.value);
  }

  lemma JobPrinted(b: Bytes, pos: nat)
    requires JobAt(b, pos).Some?
    ensures
      var j := JobAt(b, pos).value;
      RawOk(j.value) && At(b, pos, PrintJob(j.value)) && j.next == pos + |PrintJob(j.value)|
  {
    hide At, Int32At, BlobAt, Uint32BE, PrintBlob, Bits;
    var j := JobAt(b, pos).value.value;
    Int32Printed(b, pos);
    Int32Printed(b, pos + 4);
    var s1 := Uint32BE(j.fromGroup);
    var s2 := s1 + Uint32BE(j.toGroup);
    AtConcat(b, pos, s1, Uint32BE(j.toGroup));
    BlobPrinted(b, pos + 8);
    var s3 := s2 + PrintBlob(j.headerBlob);
    AtConcat(b, pos, s2, PrintBlob(j.headerBlob));
    BlobPrinted(b, pos + |s3|);
    var s4 := s3 + PrintBlob(j.txsBlob);
    AtConcat(b, pos, s3, PrintBlob(j.txsBlob));
    BlobPrinted(b, pos + |s4|);
    var s5 := s4 + PrintBlob(j.target);
    AtConcat(b, pos, s4, PrintBlob(j.target));
    Int32Printed(b, pos + |s5|);
    AtConcat(b, pos, s5, Uint32BE(Bits(j.height)));
  }

  lemma {:induction false} JobListPrinted(b: Bytes, pos: nat, n: nat)
    requires pos <= |b| && JobListAt(b, pos, n).Some?
    ensures
      var js := JobListAt(b, pos, n).value;
      |js.value| == n && RawsOk(js.value) && At(b, pos, PrintJobList(js.value))
          && js.next == pos + |PrintJobList(js.value)|
    decreases n
  {
    hide At, JobAt, PrintJob, RawOk;
    if n == 0 {
      NothingAt(b, pos);
    } else {
      var first := JobAt(b, pos).value;
      JobPrinted(b, pos);
      AtInside(b, pos, PrintJob(first.value));
      JobListPrinted(b, first.next, n - 1);
      var rest := JobListAt(b, first.next, n - 1).value.value;
      var js := [first.value] + rest;
      assert js[1..] == rest;
      AtConcat(b, pos, PrintJob(first.value), PrintJobList(rest));
    }
  }

  lemma NothingAt(b: Bytes, pos: nat)
    requires pos <= |b|
    ensures At(b, pos, [])
  {
  }

  /** A payload is accepted exactly when it starts with the encoding of at most 4096 jobs, and
      it is read as those jobs; what follows them is ignored. */
  lemma JobsExactly(b: Bytes, js: seq<RawJob>)
    ensures JobsAt(b).Some? && JobsAt(b).value.value == js
            <==> |js| <= MAX_JOBS && RawsOk(js) && PrintJobs(js) <= b
  {
    hide At, Int32At, JobListAt, Uint32BE, PrintJobList, RawsOk;
    if JobsAt(b).Some? && JobsAt(b).value.value == js {
      Int32Printed(b, 0);
      AtInside(b, 0, Uint32BE(Bits(Int32At(b, 0).value.value)));
      JobListPrinted(b, 4, Int32At(b, 0).value.value);
      AtConcat(b, 0, Uint32BE(|js|), PrintJobList(js));
      AtSlice(b, 0, PrintJobs(js));
    }
    if |js| <= MAX_JOBS && RawsOk(js) && PrintJobs(js) <= b {
      JobsRead(js, b[|PrintJobs(js)|..]);
      assert b == PrintJobs(js) + b[|PrintJobs(js)|..];
    }
  }

  // ------------------------------------------------------------------
  // The reader
  // ------------------------------------------------------------------

  class Reader {
    const b: Bytes
    var pos: nat
    var err: bool

    /** The position never passes the end. */
    ghost predicate Valid()
      reads this
    {
      pos <= |b|
    }

    constructor (payload: Bytes)
      ensures Valid() && b == payload && pos == 0 && !err
    {
      b, pos, err := payload, 0, false;
    }

    /** int32: once an error is set nothing is read any more. */
    method ReadInt32() returns (v: int32)
      requires Valid()
      modifies this
      ensures Valid() && (old(err) ==> err)
      ensures err <==> old(err) || Int32At(b, old(pos)).None?
      ensures !err ==> Some(Parsed(v, pos)) == Int32At(b, old(pos))
      ensures err ==> v == 0 && pos == old(pos)
    {
      if err || pos + 4 > |b| {
        err := true;
        return 0;
      }
      BigEndianInverse(b[pos..pos + 4]);
      v := Int32(FromBE(b[pos..pos + 4]));
      pos := pos + 4;
    }

    method ReadBlob() returns (v: Bytes)
      requires Valid()
      modifies this
      ensures Valid() && (old(err) ==> err && pos == old(pos))
      ensures err <==> old(err) || BlobAt(b, old(pos)).None?
      ensures !err ==> Some(Parsed(v, pos)) == BlobAt(b, old(pos))
      ensures err ==> v == []
    {
      hide Int32At;
      var n := ReadInt32();
      if err || n < 0 || pos + n > |b| {
        err := true;
        return [];
      }
      v := b[pos..pos + n];
      pos := pos + n;
    }
  }

  datatype ChainJob = ChainJob(id: nat, fromGroup: uint32, toGroup: uint32, headerBlob: Bytes, txsBlob: Bytes,
      target: nat, height: int32)

  /** The job made of what was sent. */
  function Decoded(j: RawJob, id: nat): ChainJob {
    ChainJob(id, j.fromGroup, j.toGroup, j.headerBlob, j.txsBlob, FromBE(j.target), j.height)
  }

  function DecodedAll(js: seq<RawJob>, firstID: nat): seq<ChainJob> {
    seq(|js|, i requires 0 <= i < |js| => Decoded(js[i], firstID + i))
  }

  /** One turn of the loop. */
  method ParseJob(r: Reader, id: nat) returns (j: ChainJob)
    requires r.Valid() && !r.err
    modifies r
    ensures r.Valid()
    ensures r.err <==> JobAt(r.b, old(r.pos)).None?
    ensures !r.err ==> JobAt(r.b, old(r.pos)).Some? && r.pos == JobAt(r.b, old(r.pos)).value.next
                       && j == Decoded(JobAt(r.b, old(r.pos)).value.value, id)
  {
    hide Int32At, BlobAt, FromBE;
    var fromGroup := r.ReadInt32();
    var toGroup := r.ReadInt32();
    var headerBlob := r.ReadBlob();
    var txsBlob := r.ReadBlob();
    var target := r.ReadBlob();
    var height := r.ReadInt32();
    j := ChainJob(id, Bits(fromGroup), Bits(toGroup), headerBlob, txsBlob, FromBE(target), height);
  }

  /** parseJobs: ids come from a counter, one per job looked at. */
  method ParseJobs(payload: Bytes, firstID: nat) returns (jobs: Option<seq<ChainJob>>)
    ensures jobs == match JobsAt(payload)
                    case None => None
                    case Some(js) => Some(DecodedAll(js.value, firstID))
  {
    hide Int32At, JobAt, Decoded;
    var r := new Reader(payload);
    var count := r.ReadInt32();
    if r.err || count < 0 || count > MAX_JOBS {
      return None;
    }
    ghost var start, done: seq<RawJob> := r.pos, [];
    PrependNone(JobListAt(payload, start, count));
    var out: seq<ChainJob> := [];
    for i := 0 to count
      invariant r.Valid() && !r.err && r.b == payload
      invariant |done| == i && out == DecodedAll(done, firstID)
      invariant JobListAt(payload, start, count) == Prepended(done, JobListAt(payload, r.pos, count - i))
    {
      ghost var pos := r.pos;
      var j := ParseJob(r, firstID + i);
      if r.err {
        return None;
      }
      ghost var raw := JobAt(payload, pos).value.value;
      PrependOne(payload, pos, count - i, done);
      done := done + [raw];
      out := out + [j];
    }
    jobs := Some(out);
    assert done + [] == done;
  }

  /** The rest of a list behind what was read before. */
  function Prepended(done: seq<RawJob>, rest: Option<Parsed<seq<RawJob>>>): Option<Parsed<seq<RawJob>>> {
    if rest.None? then None else Some(Parsed(done + rest.value.value, rest.value.next))
  }

  lemma PrependNone(rest: Option<Parsed<seq<RawJob>>>)
    ensures Prepended([], rest) == rest
  {
    if rest.Some? {
      assert [] + rest.value.value == rest.value.value;
    }
  }

  lemma PrependOne(b: Bytes, pos: nat, n: nat, done: seq<RawJob>)
    requires n > 0
    ensures
      match JobAt(b, pos)
      case None => Prepended(done, JobListAt(b, pos, n)) == None
      case Some(j) => Prepended(done, JobListAt(b, pos, n)) == Prepended(done + [j.value], JobListAt(b, j.next, n - 1))
  {
    hide JobAt;
    if JobAt(b, pos).Some? {
      var j := JobAt(b, pos).value;
      if JobListAt(b, j.next, n - 1).Some? {
        var rest := JobListAt(b, j.next, n - 1).value.value;
        assert done + ([j.value] + rest) == (done + [j.value]) + rest;
      }
    }
  }

  // ------------------------------------------------------------------
  // Frames
  // ------------------------------------------------------------------

  datatype Frame = Frame(version: byte, msgType: byte, payload: Bytes)

  /** A frame read off a stream, and what is left of the stream. */
  datatype FrameRead = FrameRead(frame: Frame, rest: Bytes)

  /** buildFrame. */
  function BuildFrame(msgType: byte, payload: Bytes): Bytes {
    var body := [PROTOCOL_VERSION, msgType] + payload;
    Uint32BE(|body|) + body
  }

  /** readFrame; None is an error. */
  function ReadFrame(stream: Bytes): Option<FrameRead> {
    if |stream| < 4 then None
    else
      var n := FromBE(stream[..4]);
      if n < 2 || n > MAX_FRAME || 4 + n > |stream| then None
      else
        var body := stream[4..4 + n];
        Some(FrameRead(Frame(body[0], body[1], body[2..]), stream[4 + n..]))
  }

  /** A frame that was built is read back exactly when it is within the size limit, even where
      its length does not fit the header. */
  lemma FrameRoundTrip(msgType: byte, payload: Bytes, rest: Bytes)
    ensures ReadFrame(BuildFrame(msgType, payload) + rest)
            == Some(FrameRead(Frame(PROTOCOL_VERSION, msgType, payload), rest))
            <==> 2 + |payload| <= MAX_FRAME
  {
    hide FromBE, Uint32BE;
    var body := [PROTOCOL_VERSION, msgType] + payload;
    var stream := BuildFrame(msgType, payload) + rest;
    assert stream[..4] == Uint32BE(|body|);
    FrameLength(|body|);
    if |body| <= MAX_FRAME {
      assert stream[4..4 + |body|] == body;
      assert body[2..] == payload;
      assert stream[4 + |body|..] == rest;
    }
  }

  lemma FrameLength(n: nat)
    ensures FromBE(Uint32BE(n)) == Uint32(n)
  {
    hide FromLE, ToLE, Reversed, Pow256, Uint32;
    Powers256();
    LittleEndianRoundTrip(Uint32(n), 4);
    ReversedTwice(ToLE(Uint32(n), 4));
  }

  /** A frame that is read was sent as its length, version, type and payload. */
  lemma FrameIsBuilt(stream: Bytes)
    requires ReadFrame(stream).Some?
    ensures
      var r := ReadFrame(stream).value;
      stream == Uint32BE(2 + |r.frame.payload|) + [r.frame.version, r.frame.msgType] + r.frame.payload + r.rest
  {
    hide FromBE, Uint32BE;
    BigEndianInverse(stream[..4]);
    var n := FromBE(stream[..4]);
    var r := ReadFrame(stream).value;
    var body := stream[4..4 + n];
    assert body == [r.frame.version, r.frame.msgType] + r.frame.payload;
    assert stream == stream[..4] + (body + r.rest);
    assert |body| == n;
  }

  /** submitBlock: the block is a blob of its own in a frame, and it arrives. */
  lemma SubmittedBlockArrives(blockBlob: Bytes, rest: Bytes)
    requires |blockBlob| + 6 <= MAX_FRAME
    ensures
      var r := ReadFrame(BuildFrame(0, PrintBlob(blockBlob)) + rest);
      && r.Some? && r.value.rest == rest
      && BlobAt(r.value.frame.payload, 0) == Some(Parsed(blockBlob, |r.value.frame.payload|))
  {
    hide BuildFrame, ReadFrame, BlobAt, PrintBlob;
    BlobLength(blockBlob);
    FrameRoundTrip(0, PrintBlob(blockBlob), rest);
    AtWhole(PrintBlob(blockBlob));
    BlobReads(PrintBlob(blockBlob), 0, blockBlob);
  }

  lemma BlobLength(x: Bytes)
    ensures |PrintBlob(x)| == 4 + |x|
  {
  }
}
