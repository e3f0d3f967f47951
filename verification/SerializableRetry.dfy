/** The retry loop around a serializable transaction. */
module SerializableRetry {
  import opened Domain

  const RETRY_ATTEMPTS := 3

  /** What one `$transaction` call does: commit the function's effect, fail with P2034, or fail otherwise. */
  datatype Outcome<T> = Commits(effect: T) | SerializationFailure | OtherFailure(code: nat)

  datatype Thrown = P2034 | Other(code: nat) | ClosingConflict

  /** What the loop has come to when its attempts so far met `outcomes`: still running, or over. */
  function EndingOf<T>(outcomes: seq<Outcome<T>>): Option<Result<T, Thrown>> {
    if |outcomes| == 0 then None
    else
      match outcomes[|outcomes| - 1]
      case Commits(effect) => Some(Ok(effect))
      case SerializationFailure => if |outcomes| == RETRY_ATTEMPTS then Some(Err(P2034)) else None
      case OtherFailure(code) => Some(Err(Other(code)))
  }

  /** The loop goes on exactly until it is over. */
  predicate IsLoopRun<T>(outcomes: seq<Outcome<T>>) {
    |outcomes| <= RETRY_ATTEMPTS && forall n :: 0 <= n < |outcomes| ==> EndingOf(outcomes[..n]) == None
  }

  /** `outcomes[i]` is what attempt `i + 1` would meet; `effects` is what the database kept.
      An abort has no effect. */
  method RunSerializable<T>(outcomes: seq<Outcome<T>>)
    returns (r: Result<T, Thrown>, effects: seq<T>, attempts: nat)
    requires |outcomes| == RETRY_ATTEMPTS
    ensures 1 <= attempts <= 3
    ensures forall i :: 0 <= i < attempts - 1 ==> outcomes[i].SerializationFailure?
    ensures match outcomes[attempts - 1]
            case Commits(effect) => r == Ok(effect) && effects == [effect]
            case SerializationFailure => r == Err(P2034) && effects == [] && attempts == 3
            case OtherFailure(code) => r == Err(Other(code)) && effects == []
    ensures IsLoopRun(outcomes[..attempts]) && EndingOf(outcomes[..attempts]) == Some(r)
    ensures r != Err(ClosingConflict)
  {
    assert forall n, m :: 0 <= n <= m <= |outcomes| ==> outcomes[..m][..n] == outcomes[..n];
    r, effects := Err(ClosingConflict), [];
    attempts := 1;
    while attempts <= RETRY_ATTEMPTS
      invariant 1 <= attempts <= RETRY_ATTEMPTS
      invariant forall i :: 0 <= i < attempts - 1 ==> outcomes[i].SerializationFailure?
      invariant effects == []
      decreases RETRY_ATTEMPTS - attempts
    {
      match outcomes[attempts - 1] {
        case Commits(effect) =>
          effects := effects + [effect];
          r := Ok(effect);
          return;
        case SerializationFailure =>
          if attempts == RETRY_ATTEMPTS {
            r := Err(P2034);
            return;
          }
        case OtherFailure(code) =>
          r := Err(Other(code));
          return;
      }
      attempts := attempts + 1;
    }
    assert false;
  }
}
