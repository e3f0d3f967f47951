/** The requests of the booking protocol follow the retry loop: what ends their attempts, in order, is a run
    of the loop, and a request is over exactly when the loop is. */
module RequestOutcomes {
  import opened Domain
  import opened BookingProtocol
  import SerializableRetry

  type Outcome = SerializableRetry.Outcome<Entry>

  predicate FailedIn(s: State, q: RequestId) {
    q in s.requests && s.requests[q].phase == Failed
  }

  /** How a step ends the running attempt of `q`, if it does. A refusal by a check inside the transaction
      is an `OtherFailure`, as are the other errors. */
  function EndOfAttempt(s: State, zone: Zones, step: Step, q: RequestId): Option<Outcome> {
    if !IsActive(s, q) then None
    else if step == AbortSerialization(q) then Some(SerializableRetry.SerializationFailure)
    else if step.Commit? && step.q == q && ReadyToCommit(s, q, step.newId)
    then Some(SerializableRetry.Commits(EntryOf(s, q, step.newId)))
    else if FailedIn(Apply(s, zone, step), q) then Some(SerializableRetry.OtherFailure(0))
    else None
  }

  /** The outcomes of the attempts of `q` over a run. */
  function Outcomes(s: State, zone: Zones, q: RequestId, steps: seq<Step>): seq<Outcome>
    decreases |steps|
  {
    if |steps| == 0 then []
    else
      var end := EndOfAttempt(s, zone, steps[0], q);
      (if end.Some? then [end.value] else []) + Outcomes(Apply(s, zone, steps[0]), zone, q, steps[1..])
  }

  lemma StepFollowsLoop(s: State, zone: Zones, step: Step, q: RequestId)
    requires IsActive(s, q)
    ensures var s' := Apply(s, zone, step);
            && q in s'.requests
            && match EndOfAttempt(s, zone, step, q)
               case None => IsActive(s', q) && s'.requests[q].attempt == s.requests[q].attempt
               case Some(SerializationFailure) =>
                 if s.requests[q].attempt == SerializableRetry.RETRY_ATTEMPTS then FailedIn(s', q)
                 else IsActive(s', q) && s'.requests[q].attempt == s.requests[q].attempt + 1
               case Some(Commits(entry)) => s'.requests[q].phase == Committed && s'.log == s.log + [entry]
               case Some(OtherFailure(_)) => FailedIn(s', q)
  {
    if !step.Commit? && !step.AbortSerialization? {
      StepIsQuiet(s, zone, step);
    }
  }

  lemma StepKeepsSettled(s: State, zone: Zones, step: Step, q: RequestId)
    requires q in s.requests && s.requests[q].phase != Active
    ensures q in Apply(s, zone, step).requests && Apply(s, zone, step).requests[q] == s.requests[q]
  {
    if !step.Commit? {
      StepIsQuiet(s, zone, step);
    }
  }

  lemma StepKeepsEntries(s: State, zone: Zones, step: Step)
    ensures s.log <= Apply(s, zone, step).log
  {
    if !step.Commit? {
      StepIsQuiet(s, zone, step);
    }
  }

  lemma {:induction false} SettledForGood(s: State, zone: Zones, q: RequestId, steps: seq<Step>)
    requires q in s.requests && s.requests[q].phase != Active
    ensures q in Run(s, zone, steps).requests && Run(s, zone, steps).requests[q] == s.requests[q]
    ensures Outcomes(s, zone, q, steps) == [] && s.log <= Run(s, zone, steps).log
    decreases |steps|
  {
    if |steps| > 0 {
      StepKeepsSettled(s, zone, steps[0], q);
      StepKeepsEntries(s, zone, steps[0]);
      SettledForGood(Apply(s, zone, steps[0]), zone, q, steps[1..]);
    }
  }

  /** The request is where the loop is after the failures so far (`behind` of them before `s`) and `outcomes`. */
  ghost predicate Matches(end: State, q: RequestId, behind: nat, outcomes: seq<Outcome>) {
    && q in end.requests
    && behind + |outcomes| <= SerializableRetry.RETRY_ATTEMPTS
    && (forall i :: 0 <= i < |outcomes| - 1 ==> outcomes[i].SerializationFailure?)
    && if |outcomes| == 0 then IsActive(end, q)
       else
         match outcomes[|outcomes| - 1]
         case Commits(entry) => end.requests[q].phase == Committed && entry in end.log
         case SerializationFailure =>
           if behind + |outcomes| == SerializableRetry.RETRY_ATTEMPTS then FailedIn(end, q) else IsActive(end, q)
         case OtherFailure(_) => FailedIn(end, q)
  }

  lemma LastAttempt(s: State, zone: Zones, q: RequestId, steps: seq<Step>)
    requires |steps| > 0 && IsActive(s, q) && 1 <= s.requests[q].attempt <= SerializableRetry.RETRY_ATTEMPTS
    requires !IsActive(Apply(s, zone, steps[0]), q)
    ensures Matches(Run(s, zone, steps), q, s.requests[q].attempt - 1, Outcomes(s, zone, q, steps))
  {
    var s' := Apply(s, zone, steps[0]);
    StepFollowsLoop(s, zone, steps[0], q);
    SettledForGood(s', zone, q, steps[1..]);
    var end := EndOfAttempt(s, zone, steps[0], q);
    assert Outcomes(s, zone, q, steps) == [end.value];
    if end.value.Commits? {
      assert s'.log[|s.log|] == end.value.effect;
      assert Run(s, zone, steps).log[|s.log|] == s'.log[|s.log|];
    }
  }

  lemma {:induction false} RunFollowsLoop(s: State, zone: Zones, q: RequestId, steps: seq<Step>)
    requires IsActive(s, q) && 1 <= s.requests[q].attempt <= SerializableRetry.RETRY_ATTEMPTS
    ensures Matches(Run(s, zone, steps), q, s.requests[q].attempt - 1, Outcomes(s, zone, q, steps))
    decreases |steps|
  {
    if |steps| > 0 {
      StepFollowsLoop(s, zone, steps[0], q);
      if IsActive(Apply(s, zone, steps[0]), q) {
        RunFollowsLoop(Apply(s, zone, steps[0]), zone, q, steps[1..]);
      } else {
        LastAttempt(s, zone, q, steps);
      }
    }
  }

  /** From its start on, and in whatever run, the attempts of a request are a run of the retry loop: at most
      three, all but the last ended by P2034. The request is active exactly while the loop runs, committed
      with the loop's effect in the log when the loop returned, and failed when it threw. */
  lemma RequestFollowsRetryLoop(s: State, zone: Zones, q: RequestId, steps: seq<Step>)
    requires IsActive(s, q) && s.requests[q].attempt == 1
    ensures var outcomes := Outcomes(s, zone, q, steps);
            var end := Run(s, zone, steps);
            && SerializableRetry.IsLoopRun(outcomes) && |outcomes| <= 3
            && q in end.requests
            && match SerializableRetry.EndingOf(outcomes)
               case None => end.requests[q].phase == Active
               case Some(Ok(entry)) => end.requests[q].phase == Committed && entry in end.log
               case Some(Err(_)) => end.requests[q].phase == Failed
  {
    RunFollowsLoop(s, zone, q, steps);
  }
}
