/** Difficulty retargeting (vardiff/ringbuffer.go, vardiff/vardiff.go), in exact arithmetic
    and with the clock as a parameter. */
module VarDiffs {
  import opened Pow

  function Sum(s: seq<int>): int {
    if s == [] then 0 else s[0] + Sum(s[1..])
  }

  lemma {:induction false} SumConcat(a: seq<int>, b: seq<int>)
    ensures Sum(a + b) == Sum(a) + Sum(b)
  {
    if a == [] {
      assert a + b == b;
    } else {
      assert (a + b)[1..] == a[1..] + b;
      SumConcat(a[1..], b);
    }
  }

  lemma SumNothing(s: seq<int>)
    ensures Sum(s[..0]) == 0
  {
  }

  lemma SumNext(s: seq<int>, i: nat)
    requires i < |s|
    ensures Sum(s[..i + 1]) == Sum(s[..i]) + s[i]
  {
    assert s[..i + 1] == s[..i] + [s[i]];
    SumConcat(s[..i], [s[i]]);
  }

  lemma SumRotated(s: seq<int>, i: nat)
    requires i <= |s|
    ensures Sum(s[i..] + s[..i]) == Sum(s)
  {
    SumConcat(s[i..], s[..i]);
    SumConcat(s[..i], s[i..]);
    assert s == s[..i] + s[i..];
  }

  /** The newest n elements; all of them when n is not positive. */
  function Newest(s: seq<int>, n: int): seq<int> {
    if n <= 0 || |s| <= n then s else s[|s| - n..]
  }

  /** The mean of a list. */
  function Mean(s: seq<int>): real
    requires s != []
  {
    Sum(s) as real / |s| as real
  }

  class RingBuffer {
    const maxSize: int
    var isFull: bool
    var cursor: nat
    var data: seq<int>
    /** Everything appended since the last clear. */
    ghost var since: seq<int>

    /** The data are the newest maxSize values appended since the last clear, rotated so that
        the oldest one is at the cursor once the buffer is full. */
    ghost predicate Valid()
      reads this
    {
      if isFull then
        && |data| == maxSize > cursor && |since| >= maxSize
        && data[cursor..] + data[..cursor] == Newest(since, maxSize)
      else cursor == |data| && data == since && (maxSize <= 0 || |data| < maxSize)
    }

    constructor (maxSize: int)
      ensures Valid() && since == [] && this.maxSize == maxSize
    {
      this.maxSize, isFull, cursor, data, since := maxSize, false, 0, [], [];
    }

    method Append(x: int)
      requires Valid()
      modifies this
      ensures Valid() && since == old(since) + [x]
    {
      since := since + [x];
      if isFull {
        data := data[cursor := x];
        cursor := (cursor + 1) % maxSize;
        Rotated(old(data), old(cursor), x, old(since), maxSize);
      } else {
        data := data + [x];
        cursor := cursor + 1;
        if |data| == maxSize {
          cursor, isFull := 0, true;
          assert data[0..] + data[..0] == data;
        }
      }
    }

    function Size(): int
      reads this
    {
      if isFull then maxSize else cursor
    }

    /** Avg: the mean of what the buffer holds. */
    method Avg() returns (avg: real)
      requires Valid() && since != []
      ensures avg == Mean(Newest(since, maxSize))
    {
      hide Sum;
      var sum := 0;
      SumNothing(data);
      for i := 0 to |data|
        invariant sum == Sum(data[..i])
      {
        SumNext(data, i);
        sum := sum + data[i];
      }
      assert data[..|data|] == data;
      if isFull {
        SumRotated(data, cursor);
      }
      avg := sum as real / Size() as real;
    }

    method Clear()
      modifies this
      ensures Valid() && since == []
    {
      data, cursor, isFull, since := [], 0, false, [];
    }
  }

  /** Overwriting the oldest element and moving the cursor on drops the oldest value. */
  lemma Rotated(data: seq<int>, cursor: nat, x: int, since: seq<int>, size: int)
    requires |data| == size > cursor && |since| >= size
    requires data[cursor..] + data[..cursor] == Newest(since, size)
    ensures
      var d, c := data[cursor := x], (cursor + 1) % size;
      d[c..] + d[..c] == Newest(since + [x], size)
  {
    NewestAppend(since, x, size);
    hide Newest;
    assert (cursor + 1) % size == NextSlot(cursor, |data|);
    RotatedData(data, cursor, x);
  }

  lemma NewestAppend(since: seq<int>, x: int, size: int)
    requires |since| >= size > 0
    ensures |Newest(since, size)| == size && Newest(since + [x], size) == Newest(since, size)[1..] + [x]
  {
  }

  function NextSlot(cursor: nat, size: nat): nat
    requires cursor < size
  {
    if cursor + 1 == size then 0 else cursor + 1
  }

  lemma RotatedData(data: seq<int>, cursor: nat, x: int)
    requires cursor < |data|
    ensures
      var d, c := data[cursor := x], NextSlot(cursor, |data|);
      d[c..] + d[..c] == (data[cursor..] + data[..cursor])[1..] + [x]
  {
    var p, q := data[..cursor], data[cursor + 1..];
    var d, c := data[cursor := x], NextSlot(cursor, |data|);
    assert data[cursor..] == [data[cursor]] + q;
    assert ([data[cursor]] + q + p)[1..] == q + p;
    if c == 0 {
      assert q == [] && d[0..] == p + [x] && d[..0] == [];
    } else {
      assert d[c..] == q && d[..c] == p + [x];
      assert q + (p + [x]) == (q + p) + [x];
    }
  }

  datatype Options = Options(minDiff: real, maxDiff: real, targetTime: int, retargetTime: int, variance: real, x2: bool)

  /** A usable configuration: NewVarDiff divides by the target time, and CalcNextDiff by a
      mean that exceeds the upper bound. */
  predicate OptionsOk(o: Options) {
    o.targetTime > 0 && o.variance >= -1.0
  }

  function MaxTargetTime(o: Options): real {
    o.targetTime as real * (1.0 + o.variance)
  }

  function MinTargetTime(o: Options): real {
    o.targetTime as real * (1.0 - o.variance)
  }

  /** The target time in nanoseconds. */
  function TargetNanos(o: Options): real {
    o.targetTime as real * 1000000000.0
  }

  /** Shares come too slowly, and there is room to lower the difficulty. */
  predicate Slow(o: Options, avg: real, cur: real) {
    avg > MaxTargetTime(o) && cur > o.minDiff
  }

  predicate Fast(o: Options, avg: real) {
    avg < MinTargetTime(o)
  }

  /** The ratio of the target time to the mean interval; None is +Inf, for a mean of zero. */
  datatype Ratio = Infinite | Finite(value: real)

  function RatioOf(o: Options, avg: real): Ratio {
    if avg == 0.0 then Infinite else Finite(TargetNanos(o) / avg)
  }

  /** What CalcNextDiff answers when a retarget is due, for a usable configuration and a
      positive difficulty. */
  function Retarget(o: Options, avg: real, cur: real): real
    requires OptionsOk(o) && cur > 0.0
  {
    if Slow(o, avg, cur) then
      // the mean is positive here, so the ratio is finite
      var ratio := if o.x2 || avg == 0.0 then 0.5 else TargetNanos(o) / avg;
      AtLeastCurrent(cur, if Scaled(ratio, cur) < o.minDiff then o.minDiff / cur else ratio)
    else if Fast(o, avg) then
      var ratio := if o.x2 then Finite(2.0) else RatioOf(o, avg);
      AtLeastCurrent(cur, if ratio.Infinite? || Scaled(ratio.value, cur) > o.maxDiff then o.maxDiff / cur
          else ratio.value)
    else cur
  }

  /** `newDiff = currentDiff * ddiff`, unless that is not positive. */
  function AtLeastCurrent(cur: real, ratio: real): real {
    if Scaled(ratio, cur) <= 0.0 then cur else Scaled(ratio, cur)
  }

  function Scaled(ratio: real, cur: real): real {
    ratio * cur
  }

  lemma Cancel(cur: real, x: real)
    requires cur > 0.0
    ensures Scaled(x / cur, cur) == x
  {
  }

  /** In X2 mode a difficulty in range is halved or doubled and stays in range. */
  lemma X2KeepsRange(o: Options, avg: real, cur: real)
    requires OptionsOk(o) && o.x2 && cur > 0.0 && o.minDiff <= cur <= o.maxDiff
    ensures o.minDiff <= Retarget(o, avg, cur) <= o.maxDiff
    ensures Slow(o, avg, cur) ==> Retarget(o, avg, cur) == if cur / 2.0 < o.minDiff then o.minDiff else cur / 2.0
    ensures !Slow(o, avg, cur) && Fast(o, avg) ==>
            Retarget(o, avg, cur) == if cur * 2.0 > o.maxDiff then o.maxDiff else cur * 2.0
    ensures !Slow(o, avg, cur) && !Fast(o, avg) ==> Retarget(o, avg, cur) == cur
  {
    hide Slow, Fast, RatioOf, TargetNanos;
    Cancel(cur, o.minDiff);
    Cancel(cur, o.maxDiff);
  }

  /** Without X2 the ratio takes nanoseconds over seconds. A difficulty in range leaves it
      exactly when shares come too slowly and the ratio carries it past the maximum, which the
      slow branch does not check. */
  lemma RangeLeftOnlyWhenSlow(o: Options, avg: real, cur: real)
    requires OptionsOk(o) && !o.x2 && cur > 0.0 && o.minDiff <= cur <= o.maxDiff
    ensures !(o.minDiff <= Retarget(o, avg, cur) <= o.maxDiff)
            <==> Slow(o, avg, cur) && TargetNanos(o) * cur > o.maxDiff * avg
  {
    hide RatioOf, Scaled;
    Cancel(cur, o.minDiff);
    Cancel(cur, o.maxDiff);
    if Slow(o, avg, cur) {
      SlowIsPositive(o, avg);
      RatioTimes(TargetNanos(o), avg, cur, o.maxDiff);
      hide Slow, Fast, TargetNanos;
    } else if Fast(o, avg) {
      FastRatio(o, avg, cur);
      hide Slow, Fast, TargetNanos;
    }
  }

  /** A retarget never answers zero or less. */
  lemma RetargetPositive(o: Options, avg: real, cur: real)
    requires OptionsOk(o) && cur > 0.0
    ensures Retarget(o, avg, cur) > 0.0
  {
  }

  lemma SlowIsPositive(o: Options, avg: real)
    requires OptionsOk(o) && avg > MaxTargetTime(o)
    ensures avg > 0.0
  {
    assert o.targetTime as real * (1.0 + o.variance) >= 0.0;
  }

  lemma RatioTimes(n: real, avg: real, cur: real, max: real)
    requires avg > 0.0
    ensures Scaled(n / avg, cur) > max <==> n * cur > max * avg
  {
    var q := n / avg;
    assert q * avg == n;
    assert n * cur == (q * cur) * avg;
    if q * cur > max {
      assert (q * cur - max) * avg > 0.0;
    } else {
      assert (max - q * cur) * avg >= 0.0;
    }
  }

  /** A mean below the target time makes the ratio huge, negative or infinite. */
  lemma FastRatio(o: Options, avg: real, cur: real)
    requires OptionsOk(o) && Fast(o, avg) && cur > 0.0
    ensures RatioOf(o, avg).Infinite?
            || Scaled(RatioOf(o, avg).value, cur) >= cur || Scaled(RatioOf(o, avg).value, cur) <= 0.0
  {
    var n := TargetNanos(o);
    assert o.targetTime as real * (1.0 + o.variance) >= 0.0;
    assert avg < 2.0 * o.targetTime as real <= n;
    if avg > 0.0 {
      var q := n / avg;
      QuotientBound(n, avg, 1.0);
      assert (q - 1.0) * cur >= 0.0;
    } else if avg < 0.0 {
      var q := n / avg;
      assert q * avg == n;
      SignOfProduct(q, avg);
      assert -q * cur >= 0.0;
    }
  }

  lemma SignOfProduct(x: real, y: real)
    ensures x > 0.0 && y < 0.0 ==> x * y < 0.0
  {
  }

  /** One slow minute is enough to leave the range. */
  lemma NanosecondsOverSeconds()
    ensures
      var o := Options(1.0, 100.0, 10, 60, 0.3, false);
      OptionsOk(o) && Retarget(o, 20.0, 2.0) == 1000000000.0 > o.maxDiff
  {
  }

  // ------------------------------------------------------------------
  // Any configuration, any difficulty
  // ------------------------------------------------------------------

  /** What a float64 can be, with exact finite values. */
  datatype Float = NaN | NegInf | PosInf | Num(value: real)

  function Divided(a: real, b: real): Float {
    if b != 0.0 then Num(a / b)
    else if a > 0.0 then PosInf
    else if a < 0.0 then NegInf
    else NaN
  }

  function Times(x: Float, y: real): Float {
    match x
    case Num(v) => Num(Scaled(v, y))
    case NaN => NaN
    case PosInf => if y > 0.0 then PosInf else if y < 0.0 then NegInf else NaN
    case NegInf => if y > 0.0 then NegInf else if y < 0.0 then PosInf else NaN
  }

  /** Comparisons, false of NaN. */
  predicate Below(x: Float, y: real) {
    x == NegInf || (x.Num? && x.value < y)
  }

  predicate Above(x: Float, y: real) {
    x == PosInf || (x.Num? && x.value > y)
  }

  /** What CalcNextDiff answers when a retarget is due. */
  function NextDiff(o: Options, avg: real, cur: real): Float {
    if Slow(o, avg, cur) then
      var ratio := if o.x2 then Num(0.5) else Divided(TargetNanos(o), avg);
      UnlessNotPositive(cur, if Below(Times(ratio, cur), o.minDiff) then Divided(o.minDiff, cur) else ratio)
    else if Fast(o, avg) then
      var ratio := if o.x2 then Num(2.0) else Divided(TargetNanos(o), avg);
      UnlessNotPositive(cur, if Above(Times(ratio, cur), o.maxDiff) then Divided(o.maxDiff, cur) else ratio)
    else Num(cur)
  }

  function UnlessNotPositive(cur: real, ratio: Float): Float {
    var next := Times(ratio, cur);
    if Below(next, 0.0) || next == Num(0.0) then Num(cur) else next
  }

  /** With a usable configuration and a positive difficulty every answer is a number. */
  lemma NextDiffIsRetarget(o: Options, avg: real, cur: real)
    requires OptionsOk(o) && cur > 0.0
    ensures NextDiff(o, avg, cur) == Num(Retarget(o, avg, cur))
  {
    hide TargetNanos, Scaled;
    PositiveTarget(o);
    if Slow(o, avg, cur) { SlowIsPositive(o, avg); }
  }

  lemma PositiveTarget(o: Options)
    requires OptionsOk(o)
    ensures TargetNanos(o) > 0.0
  {
  }

  /** The answer in terms of the configuration. A mean interval within the variance of the target
      time changes nothing, nor does a slow one at the minimum. In X2 mode the difficulty is
      halved or doubled; otherwise it times the mean is the target's nanoseconds times the old
      one. A slow answer is raised to the minimum, a fast one cut to the maximum. */
  lemma NextDiffIs(o: Options, avg: real, cur: real)
    requires OptionsOk(o) && cur > 0.0 && 0.0 < o.minDiff <= o.maxDiff
    ensures NextDiff(o, avg, cur).Num?
    ensures
      var next, target := NextDiff(o, avg, cur).value, o.targetTime as real;
      var slow, fast := avg > target + target * o.variance, avg < target - target * o.variance;
      && (slow && cur > o.minDiff && o.x2 ==> next == if cur < 2.0 * o.minDiff then o.minDiff else cur / 2.0)
      && (slow && cur > o.minDiff && !o.x2 ==>
            if target * 1000000000.0 * cur < o.minDiff * avg then next == o.minDiff
            else next * avg == target * 1000000000.0 * cur)
      && (!(slow && cur > o.minDiff) && fast && o.x2 ==>
            next == if 2.0 * cur > o.maxDiff then o.maxDiff else 2.0 * cur)
      && (!(slow && cur > o.minDiff) && fast && !o.x2 && avg > 0.0 ==>
            if target * 1000000000.0 * cur > o.maxDiff * avg then next == o.maxDiff
            else next * avg == target * 1000000000.0 * cur)
      && (!(slow && cur > o.minDiff) && !fast ==> next == cur)
  {
    hide *;
    Band(o, avg, cur);
    NanosTimes(o, cur);
    NextDiffIsRetarget(o, avg, cur);
    if Slow(o, avg, cur) {
      SlowAnswer(o, avg, cur);
    } else if Fast(o, avg) {
      FastAnswer(o, avg, cur);
    } else {
      InBand(o, avg, cur);
    }
  }

  lemma NanosTimes(o: Options, x: real)
    ensures TargetNanos(o) * x == o.targetTime as real * 1000000000.0 * x
  {
  }

  lemma InBand(o: Options, avg: real, cur: real)
    requires OptionsOk(o) && cur > 0.0
    ensures !Slow(o, avg, cur) && !Fast(o, avg) ==> Retarget(o, avg, cur) == cur
  {
    hide Slow, Fast, Scaled;
  }

  lemma SlowAnswer(o: Options, avg: real, cur: real)
    requires OptionsOk(o) && cur > 0.0 && 0.0 < o.minDiff <= o.maxDiff && Slow(o, avg, cur)
    ensures o.x2 ==> Retarget(o, avg, cur) == if cur < 2.0 * o.minDiff then o.minDiff else cur / 2.0
    ensures !o.x2 ==> if TargetNanos(o) * cur < o.minDiff * avg then Retarget(o, avg, cur) == o.minDiff
                      else Retarget(o, avg, cur) * avg == TargetNanos(o) * cur
  {
    SlowIsPositive(o, avg);
    PositiveTarget(o);
    Cancel(cur, o.minDiff);
    RatioIs(TargetNanos(o), avg, cur, o.minDiff);
    RatioIs(TargetNanos(o), avg, cur, 0.0);
    assert TargetNanos(o) * cur > 0.0;
    hide Slow, Fast, TargetNanos;
  }

  lemma FastAnswer(o: Options, avg: real, cur: real)
    requires OptionsOk(o) && cur > 0.0 && 0.0 < o.minDiff <= o.maxDiff && !Slow(o, avg, cur) && Fast(o, avg)
    ensures o.x2 ==> Retarget(o, avg, cur) == if 2.0 * cur > o.maxDiff then o.maxDiff else 2.0 * cur
    ensures !o.x2 && avg > 0.0 ==>
              if TargetNanos(o) * cur > o.maxDiff * avg then Retarget(o, avg, cur) == o.maxDiff
              else Retarget(o, avg, cur) * avg == TargetNanos(o) * cur
  {
    PositiveTarget(o);
    Cancel(cur, o.maxDiff);
    if avg > 0.0 {
      RatioIs(TargetNanos(o), avg, cur, o.maxDiff);
      RatioIs(TargetNanos(o), avg, cur, 0.0);
      assert TargetNanos(o) * cur > 0.0;
    }
    hide Slow, Fast, TargetNanos;
  }

  lemma Band(o: Options, avg: real, cur: real)
    ensures Slow(o, avg, cur) <==>
              avg > o.targetTime as real + o.targetTime as real * o.variance && cur > o.minDiff
    ensures Fast(o, avg) <==> avg < o.targetTime as real - o.targetTime as real * o.variance
  {
  }

  /** The scaled ratio, multiplied out, and how it compares with a bound. */
  lemma RatioIs(n: real, avg: real, cur: real, bound: real)
    requires avg > 0.0
    ensures Scaled(n / avg, cur) * avg == n * cur
    ensures Scaled(n / avg, cur) > bound <==> n * cur > bound * avg
    ensures Scaled(n / avg, cur) < bound <==> n * cur < bound * avg
  {
    RatioTimes(n, avg, cur, bound);
    var q := n / avg;
    assert q * avg == n;
    assert n * cur == (q * cur) * avg;
    if q * cur < bound {
      assert (bound - q * cur) * avg > 0.0;
    } else {
      assert (q * cur - bound) * avg >= 0.0;
    }
  }

  /** Otherwise it need not be: a variance below -1 makes a mean of zero slow. */
  lemma SlowZeroMean()
    ensures
      var o := Options(1.0, 100.0, 10, 60, -2.0, false);
      NextDiff(o, 0.0, 2.0) == PosInf
  {
  }

  class VarDiff {
    const options: Options
    const timeBuffer: RingBuffer
    var lastRtc: int
    var lastTimestamp: int

    ghost predicate Valid()
      reads this, timeBuffer
    {
      options.targetTime != 0 && timeBuffer.Valid()
    }

    constructor (options: Options, timestamp: int)
      requires options.targetTime != 0
      ensures Valid() && fresh(timeBuffer) && this.options == options && timeBuffer.since == []
      ensures timeBuffer.maxSize == Quotient(options.retargetTime, options.targetTime) * 4
      ensures lastRtc == timestamp - Quotient(options.retargetTime, 2) && lastTimestamp == timestamp
    {
      this.options := options;
      timeBuffer := new RingBuffer(Quotient(options.retargetTime, options.targetTime) * 4);
      lastRtc := timestamp - Quotient(options.retargetTime, 2);
      lastTimestamp := timestamp;
    }

    /** The intervals that a call at this time looks at. */
    ghost function Intervals(timestamp: int): seq<int>
      reads this, timeBuffer
    {
      timeBuffer.since + [timestamp - lastTimestamp]
    }

    /** Their mean, over as many as the buffer holds. */
    ghost function MeanInterval(timestamp: int): real
      reads this, timeBuffer
    {
      Mean(Newest(Intervals(timestamp), timeBuffer.maxSize))
    }

    ghost predicate Due(timestamp: int)
      reads this
    {
      lastRtc != 0 && timestamp - lastRtc >= options.retargetTime
    }

    /** What a call answers: 0, for no change, unless a retarget is due. */
    ghost function Answer(cur: real, timestamp: int): Float
      reads this, timeBuffer
    {
      if Due(timestamp) then NextDiff(options, MeanInterval(timestamp), cur) else Num(0.0)
    }

    /** Whether the mean interval is outside the target band. */
    ghost predicate Moves(cur: real, timestamp: int)
      reads this, timeBuffer
    {
      Slow(options, MeanInterval(timestamp), cur) || Fast(options, MeanInterval(timestamp))
    }

    /** CalcNextDiff: 0 means no change. Only a retarget that moves the difficulty, or tries
        to, clears the intervals. */
    method CalcNextDiff(currentDiff: real, timestamp: int) returns (newDiff: Float)
      requires Valid()
      modifies this, timeBuffer
      ensures Valid()
      ensures newDiff == old(Answer(currentDiff, timestamp)) && lastTimestamp == timestamp
      ensures newDiff == if old(lastRtc) == 0 || timestamp - old(lastRtc) < options.retargetTime then Num(0.0)
                         else NextDiff(options, old(MeanInterval(timestamp)), currentDiff)
      ensures lastRtc == if old(lastRtc) == 0 then timestamp - Quotient(options.retargetTime, 2)
                         else if old(Due(timestamp)) then timestamp else old(lastRtc)
      ensures timeBuffer.since == if old(lastRtc) == 0 then old(timeBuffer.since)
                                  else if old(Due(timestamp)) && old(Moves(currentDiff, timestamp)) then []
                                  else old(Intervals(timestamp))
    {
      hide Mean, Newest, NextDiff;
      if lastRtc == 0 {
        lastRtc := timestamp - Quotient(options.retargetTime, 2);
        lastTimestamp := timestamp;
        return Num(0.0);
      }
      var sinceLast := timestamp - lastTimestamp;
      timeBuffer.Append(sinceLast);
      lastTimestamp := timestamp;
      assert timeBuffer.Size() > 0;
      if timestamp - lastRtc < options.retargetTime && timeBuffer.Size() > 0 {
        return Num(0.0);
      }
      lastRtc := timestamp;
      var avg := timeBuffer.Avg();
      var moves;
      newDiff, moves := Decide(avg, currentDiff);
      if moves {
        timeBuffer.Clear();
      }
    }

    /** The branches on the mean interval; moves is false in the one that returns early. */
    method Decide(avg: real, currentDiff: real) returns (newDiff: Float, moves: bool)
      ensures newDiff == NextDiff(options, avg, currentDiff)
      ensures moves == (Slow(options, avg, currentDiff) || Fast(options, avg))
    {
      hide Times, TargetNanos, Divided;
      var ddiff := Divided(TargetNanos(options), avg);
      if avg > MaxTargetTime(options) && currentDiff > options.minDiff {
        if options.x2 {
          ddiff := Num(0.5);
        }
        if Below(Times(ddiff, currentDiff), options.minDiff) {
          ddiff := Divided(options.minDiff, currentDiff);
        }
      } else if avg < MinTargetTime(options) {
        if options.x2 {
          ddiff := Num(2.0);
        }
        var diffMax := options.maxDiff;
        if Above(Times(ddiff, currentDiff), diffMax) {
          ddiff := Divided(diffMax, currentDiff);
        }
      } else {
        return Num(currentDiff), false;
      }
      newDiff := Times(ddiff, currentDiff);
      if Below(newDiff, 0.0) || newDiff == Num(0.0) {
        newDiff := Num(currentDiff);
      }
      moves := true;
    }
  }

  /** Go's integer division, which truncates towards zero. */
  function Quotient(a: int, b: int): int
    requires b != 0
  {
    var q := Magnitude(a) / Magnitude(b);
    if (a >= 0) == (b > 0) then q else -q
  }

  function Magnitude(a: int): nat {
    if a >= 0 then a else -a
  }

  lemma Whole(x: nat, y: nat) returns (w: int)
    requires y > 0
    ensures w == x / y * y && 0 <= w <= x < w + y
  {
    w := x / y * y;
  }

  lemma Remainder(a: int, b: int, z: int, w: int)
    requires b != 0 && 0 <= w <= Magnitude(a) < w + Magnitude(b) && z == if a >= 0 then w else -w
    ensures Magnitude(a - z) < Magnitude(b) && (a - z > 0 ==> a > 0) && (a - z < 0 ==> a < 0)
  {
  }

  lemma QuotientTimes(a: int, b: int, q: int, y: int)
    requires b != 0 && y == Magnitude(b) && q == Magnitude(a) / y
    ensures Quotient(a, b) * b == if a >= 0 then q * y else -(q * y)
  {
    SignsOut(q, y);
    var k := Quotient(a, b);
    assert k == (if (a >= 0) == (b > 0) then q else -q) && b == (if b > 0 then y else -y);
    hide Quotient;
  }

  lemma SignsOut(q: int, y: int)
    ensures (-q) * (-y) == q * y && (-q) * y == -(q * y) && q * (-y) == -(q * y)
  {
  }

  /** What is left over is smaller than the divisor and has the dividend's sign. */
  lemma QuotientTruncates(a: int, b: int)
    requires b != 0
    ensures
      var rest := a - Quotient(a, b) * b;
      Magnitude(rest) < Magnitude(b) && (rest > 0 ==> a > 0) && (rest < 0 ==> a < 0)
  {
    hide Quotient;
    var w := Whole(Magnitude(a), Magnitude(b));
    QuotientTimes(a, b, Magnitude(a) / Magnitude(b), Magnitude(b));
    Remainder(a, b, Quotient(a, b) * b, w);
  }
}
