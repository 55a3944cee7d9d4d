/** The run latch: single-shot, never cleared, and the first failure wins.  It is
    set by two assignments, and an interrupt can fall between them. */
module Latch {
  import opened Model

  datatype LatchState = UNLATCHED | UNKNOWN | VIOLATION | BATCH_FAILED

  /** What one latching call makes of the latch: nothing if it is set already;
      otherwise both assignments, or only the first when an interrupt `cut`s in. */
  predicate Latches(was: LatchState, held: Option<Error>, to: LatchState, e: Error, cut: bool,
                    now: LatchState, holds: Option<Error>, o: Outcome)
  {
    if !was.UNLATCHED? then now == was && holds == held && o.Done?
    else now == to && holds == (if cut then None else Some(e)) && o == (if cut then Raised(Interrupt) else Done)
  }

  class RunLatch {
    var state: LatchState
    var error: Option<Error>

    /** The state names the kind of error that is held, if one is. */
    ghost predicate Valid()
      reads this
    {
      match state
      case UNLATCHED => error.None?
      case UNKNOWN => error.Some? ==> error.value.UnknownOutcome?
      case VIOLATION => error.Some? ==> error.value.ContractViolation?
      case BATCH_FAILED => error.Some? ==> error.value.MigrationFailed?
    }

    constructor ()
      ensures Valid() && error.None? && !Latched()
    {
      state, error := UNLATCHED, None;
    }

    predicate Latched()
      reads this
    {
      !state.UNLATCHED?
    }

    predicate Unknown()
      reads this
    {
      state.UNKNOWN?
    }

    /** An interrupt cut the latching short: a state without an error, which no
        later call completes. */
    ghost predicate Half()
      reads this
    {
      Latched() && error.None?
    }

    /** Only a latched error speaks; a half-set latch lets every call pass. */
    function Check(): (o: Outcome)
      requires Valid()
      reads this
      ensures o.Done? <==> !Latched() || Half()
      ensures o.Raised? ==> error == Some(o.error)
    {
      if error.Some? then Raised(error.value) else Done
    }

    method LatchUnknown(e: Error, cut: bool) returns (o: Outcome)
      requires Valid() && e.UnknownOutcome?
      modifies this
      ensures Valid() && Latches(old(state), old(error), UNKNOWN, e, cut, state, error, o)
    {
      if state.UNLATCHED? {
        state := UNKNOWN;
        if cut {
          return Raised(Interrupt);
        }
        error := Some(e);
      }
      return Done;
    }

    method LatchViolation(e: Error, cut: bool) returns (o: Outcome)
      requires Valid() && e.ContractViolation?
      modifies this
      ensures Valid() && Latches(old(state), old(error), VIOLATION, e, cut, state, error, o)
    {
      if state.UNLATCHED? {
        state := VIOLATION;
        if cut {
          return Raised(Interrupt);
        }
        error := Some(e);
      }
      return Done;
    }

    method LatchFailure(e: Error, cut: bool) returns (o: Outcome)
      requires Valid() && e.MigrationFailed?
      modifies this
      ensures Valid() && Latches(old(state), old(error), BATCH_FAILED, e, cut, state, error, o)
    {
      if state.UNLATCHED? {
        state := BATCH_FAILED;
        if cut {
          return Raised(Interrupt);
        }
        error := Some(e);
      }
      return Done;
    }
  }
}
