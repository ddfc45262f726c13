/** Targets and difficulties (engine/pow.go), in exact arithmetic. */
module Pow {
  const TWO_TO_THE_256: nat :=
    0x1_0000_0000_0000_0000_0000_0000_0000_0000_0000_0000_0000_0000_0000_0000_0000_0000

  /** TargetFromDiff: floor(base / diff), with a non-positive difficulty read as 1. */
  function TargetFromDiff(base: nat, diff: real): nat {
    var d := if diff <= 0.0 then 1.0 else diff;
    var q := base as real / d;
    assert q >= 0.0 by { assert q * d == base as real; }
    q.Floor
  }

  /** DiffFromValue: the difficulty that a hash value represents. */
  function DiffFromValue(base: nat, value: int): real {
    if value <= 0 then 0.0 else base as real / value as real
  }

  /** The target is the base divided by the difficulty, rounded down, a non-positive difficulty
      counting as 1; the difficulty of a positive value times the value is the base. */
  lemma TargetIs(base: nat, diff: real, value: int)
    ensures diff > 0.0 ==>
              var t := TargetFromDiff(base, diff);
              t as real * diff <= base as real < (t + 1) as real * diff
    ensures diff <= 0.0 ==> TargetFromDiff(base, diff) == base
    ensures value > 0 ==> DiffFromValue(base, value) * value as real == base as real
    ensures value <= 0 ==> DiffFromValue(base, value) == 0.0
  {
    if diff > 0.0 {
      var q, t := base as real / diff, TargetFromDiff(base, diff);
      assert t as real <= q < (t + 1) as real;
      QuotientBound(base as real, diff, t as real);
      QuotientBound(base as real, diff, (t + 1) as real);
    }
  }

  lemma QuotientBound(base: real, d: real, x: real)
    requires d > 0.0
    ensures x <= base / d <==> x * d <= base
  {
    var q := base / d;
    assert q * d == base;
    if x <= q {
      assert (q - x) * d >= 0.0;
    } else {
      assert (x - q) * d > 0.0;
    }
  }

  /** A hash meets a difficulty's target exactly when it represents at least that difficulty. */
  lemma MeetsTarget(base: nat, diff: real, hash: int)
    requires hash > 0 && diff > 0.0
    ensures hash <= TargetFromDiff(base, diff) <==> DiffFromValue(base, hash) >= diff
  {
    var q := base as real / diff;
    assert hash <= q.Floor <==> hash as real <= q;
    QuotientBound(base as real, diff, hash as real);
    QuotientBound(base as real, hash as real, diff);
    assert hash as real * diff == diff * hash as real;
  }
}
