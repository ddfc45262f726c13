/** What an engine share is credited (stratum/engine.go): over any sequence of submits and
    retargets, the current or the previous assigned difficulty, and never more than the work
    the hash represents. */
module ShareCredit {
  import opened Prelude
  import opened Pow
  import opened VarDiffs

  datatype Code = NoError | LowDiff | OtherError

  /** An engine's answer to a submit: the achieved difficulty and an error code. */
  datatype EngineShare = EngineShare(diff: real, code: Code)

  /** An engine that compares the hash with the target of the assigned difficulty. */
  function TargetChecked(base: nat, hash: nat, given: real): EngineShare {
    EngineShare(DiffFromValue(base, hash), if hash > TargetFromDiff(base, given) then LowDiff else NoError)
  }

  /** meetsPreviousEngineDiff. */
  predicate MeetsPrevious(prev: Option<real>, achieved: real) {
    prev.Some? && prev.value > 0.0 && achieved >= prev.value
  }

  /** What a share is credited, None when it is rejected. */
  function CreditOf(cur: real, prev: Option<real>, share: EngineShare): Option<real> {
    if share.code == OtherError || (share.code == LowDiff && !MeetsPrevious(prev, share.diff)) then None
    else if share.diff >= cur || !MeetsPrevious(prev, share.diff) then Some(cur)
    else Some(prev.value)
  }

  /** A share of a target-checking engine is accepted exactly when its hash represents the
      current difficulty or the one before it, and is credited what it represents, the current
      difficulty first. */
  lemma CreditedForWorkDone(base: nat, hash: nat, cur: real, prev: Option<real>)
    requires cur > 0.0 && hash > 0
    ensures
      var share := TargetChecked(base, hash, cur);
      var work := DiffFromValue(base, hash);
      CreditOf(cur, prev, share)
      == if work >= cur then Some(cur)
         else if prev.Some? && 0.0 < prev.value <= work then prev
         else None
  {
    hide TargetFromDiff, DiffFromValue;
    MeetsTarget(base, cur, hash);
  }

  /** Credit exceeds the work represented only for a hash of zero, whose difficulty is
      reported as 0. */
  lemma CreditWithinWork(base: nat, hash: nat, cur: real, prev: Option<real>)
    requires cur > 0.0 && CreditOf(cur, prev, TargetChecked(base, hash, cur)).Some?
    ensures CreditOf(cur, prev, TargetChecked(base, hash, cur)).value <= DiffFromValue(base, hash) <==> hash > 0
  {
    if hash > 0 {
      CreditedForWorkDone(base, hash, cur, prev);
    }
  }

  /** The credit and the achieved difficulty of an accepted share, and whether its engine
      checked it against the assigned target; a hash of zero reports a difficulty of 0. */
  datatype Credited = Credited(credit: real, achieved: real, checked: bool)

  datatype Outcome = Unauthorized | Rejected | Accepted(credit: real)

  /** The current difficulty is the last one given, the previous one the one before. */
  ghost predicate History(authorized: bool, cur: Option<real>, prev: Option<real>, given: seq<real>) {
    && (forall d | d in given :: d > 0.0)
    && (if authorized then
          && given != [] && cur == Some(given[|given| - 1])
          && prev == if |given| == 1 then None else Some(given[|given| - 2])
        else given == [] && cur == None && prev == None)
  }

  /** In X2 mode, starting in range means staying in range. */
  ghost predicate StaysInRange(o: Options, portDiff: real, given: seq<real>) {
    o.x2 && o.minDiff <= portDiff <= o.maxDiff ==> forall d | d in given :: o.minDiff <= d <= o.maxDiff
  }

  lemma CurrentGiven(cur: Option<real>, prev: Option<real>, given: seq<real>)
    requires History(true, cur, prev, given)
    ensures cur.Some? && cur.value > 0.0 && cur.value in given
    ensures prev.Some? ==> prev.value in given
  {
    assert cur.value in given;
  }

  lemma Retargeted(o: Options, portDiff: real, cur: Option<real>, prev: Option<real>, given: seq<real>, avg: real,
                   next: real)
    requires OptionsOk(o) && History(true, cur, prev, given) && StaysInRange(o, portDiff, given)
    requires cur.Some? && cur.value > 0.0 && next == Retarget(o, avg, cur.value)
    ensures History(true, Some(next), cur, given + [next]) && StaysInRange(o, portDiff, given + [next])
  {
    hide Retarget, OptionsOk;
    assert forall d | d in given + [next] :: d in given || d == next;
    CurrentGiven(cur, prev, given);
    NextInRange(o, cur.value, avg, next);
  }

  class Client {
    const varDiff: VarDiff?
    const portDiff: real
    var isAuthorized: bool
    var currentDifficulty: Option<real>
    var previousDifficulty: Option<real>
    /** Every difficulty ever assigned to the client. */
    ghost var given: seq<real>
    /** Every accepted share. */
    ghost var credits: seq<Credited>

    ghost function Footprint(): set<object> {
      {this} + (if varDiff == null then {} else {varDiff, varDiff.timeBuffer})
    }

    ghost predicate Valid()
      reads Footprint()
    {
      && portDiff > 0.0 && (varDiff != null ==> varDiff.Valid() && OptionsOk(varDiff.options))
      && History(isAuthorized, currentDifficulty, previousDifficulty, given)
      && (varDiff != null ==> StaysInRange(varDiff.options, portDiff, given))
      && (forall c | c in credits :: c.credit in given && (c.checked ==> c.credit <= c.achieved || c.achieved == 0.0))
    }

    /** The difficulty that a valid share at this time makes the client's next one, if any. */
    ghost function NextGiven(timestamp: int): seq<real>
      requires Valid() && isAuthorized
      reads Footprint()
    {
      CurrentGiven(currentDifficulty, previousDifficulty, given);
      if varDiff == null then []
      else
        var next := varDiff.Answer(currentDifficulty.value, timestamp);
        if next.Num? && next.value != 0.0 && next.value != currentDifficulty.value then [next.value] else []
    }

    constructor (vd: VarDiff?, portDiff: real)
      requires portDiff > 0.0 && (vd != null ==> vd.Valid() && OptionsOk(vd.options))
      ensures Valid() && varDiff == vd && !isAuthorized && credits == []
    {
      varDiff, this.portDiff := vd, portDiff;
      isAuthorized, currentDifficulty, previousDifficulty, given, credits := false, None, None, [], [];
    }

    /** mining.authorize: the first difficulty is the port's. */
    method Authorize()
      requires Valid()
      modifies this
      ensures Valid() && isAuthorized && credits == old(credits)
      ensures given == if old(isAuthorized) then old(given) else [portDiff]
    {
      isAuthorized := true;
      if currentDifficulty == None {
        currentDifficulty := Some(portDiff);
        given := [portDiff];
      }
    }

    /** The submit branch, for any answer of the engine: tolerate, credit, retarget. When the
        answer is that of a target check on a hash, credit stays within the work. */
    method HandleSubmit(share: EngineShare, timestamp: int, ghost base: nat, ghost hash: nat)
      returns (outcome: Outcome)
      requires Valid()
      modifies Footprint()
      ensures Valid()
      ensures !old(isAuthorized) ==> outcome == Unauthorized && given == old(given) && credits == old(credits)
      ensures old(isAuthorized) ==>
                match CreditOf(old(currentDifficulty).value, old(previousDifficulty), share)
                case None => outcome == Rejected && given == old(given) && credits == old(credits)
                case Some(c) =>
                  var checked := share == TargetChecked(base, hash, old(currentDifficulty).value);
                  && outcome == Accepted(c) && (checked ==> (c <= DiffFromValue(base, hash) <==> hash > 0))
                  && (c == old(given[|given| - 1]) || (old(|given|) > 1 && c == old(given[|given| - 2])))
                  && credits == old(credits) + [Credited(c, share.diff, checked)]
                  && given == old(given) + old(NextGiven(timestamp))
    {
      if !isAuthorized {
        return Unauthorized;
      }
      var achievedDiff := share.diff;
      var code := share.code;
      if code == LowDiff && MeetsPrevious(previousDifficulty, achievedDiff) {
        code := NoError;
      }
      if code != NoError {
        return Rejected;
      }
      CurrentGiven(currentDifficulty, previousDifficulty, given);
      var credit := CreditedDiff(achievedDiff);
      ghost var checked := share == TargetChecked(base, hash, currentDifficulty.value);
      if checked { CreditWithinWork(base, hash, currentDifficulty.value, previousDifficulty); }
      credits := credits + [Credited(credit, achievedDiff, checked)];
      ApplyVarDiff(timestamp);
      outcome := Accepted(credit);
    }

    /** creditedEngineDiff. */
    method CreditedDiff(achieved: real) returns (credit: real)
      requires isAuthorized && currentDifficulty.Some?
      ensures credit == if achieved >= currentDifficulty.value || !MeetsPrevious(previousDifficulty, achieved)
                        then currentDifficulty.value else previousDifficulty.value
    {
      var cur := currentDifficulty.value;
      if achieved >= cur || previousDifficulty == None {
        return cur;
      }
      var prev := previousDifficulty.value;
      if prev > 0.0 && achieved >= prev {
        return prev;
      }
      return cur;
    }

    /** applyEngineVarDiff. */
    method ApplyVarDiff(timestamp: int)
      requires Valid() && isAuthorized
      modifies Footprint()
      ensures Valid() && isAuthorized && credits == old(credits)
      ensures given == old(given) + old(NextGiven(timestamp))
    {
      if varDiff == null || currentDifficulty == None {
        return;
      }
      hide History, StaysInRange, Retarget;
      var cur := currentDifficulty.value;
      CurrentGiven(currentDifficulty, previousDifficulty, given);
      ghost var avg := varDiff.MeanInterval(timestamp);
      NextDiffIsRetarget(varDiff.options, avg, cur);
      var answer := varDiff.CalcNextDiff(cur, timestamp);
      var next := answer.value; // a usable configuration answers with a number
      if next != 0.0 && next != cur {
        Retargeted(varDiff.options, portDiff, currentDifficulty, previousDifficulty, given, avg, next);
        previousDifficulty := currentDifficulty;
        currentDifficulty := Some(next);
        given := given + [next];
      }
    }
  }

  lemma NextInRange(o: Options, cur: real, avg: real, next: real)
    requires OptionsOk(o) && cur > 0.0 && next == Retarget(o, avg, cur)
    ensures next > 0.0
    ensures o.x2 && o.minDiff <= cur <= o.maxDiff ==> o.minDiff <= next <= o.maxDiff
  {
    hide Retarget;
    RetargetPositive(o, avg, cur);
    if o.x2 && o.minDiff <= cur <= o.maxDiff {
      X2KeepsRange(o, avg, cur);
    }
  }
}
