/** The mission budget: stage dispatches and reserved steps, reserved one stage at a time. */
module CoreBudget {
  import opened Prelude

  datatype Limits = Limits(maxDispatches: nat, maxSteps: nat)

  datatype Refusal = DispatchesExhausted | StepsCannotCover

  const MAX_STAGE_STEPS := 32

  datatype Budget = Budget(limits: Limits, dispatches: nat, steps: nat) {
    /** The cross-field validator of a stored budget. */
    predicate Valid() {
      && limits.maxDispatches <= 1024 && limits.maxSteps <= 32768
      && dispatches <= limits.maxDispatches && steps <= limits.maxSteps
      && (dispatches == 0 <==> steps == 0)
      && dispatches <= steps <= MAX_STAGE_STEPS * dispatches
    }

    /** Why a stage of this many steps cannot be reserved; only stages of 1 to 32 steps exist. */
    function StopReason(want: int): Result<Option<Refusal>> {
      if !(1 <= want <= MAX_STAGE_STEPS) then Raised
      else if dispatches >= limits.maxDispatches then Ok(Some(DispatchesExhausted))
      else if steps + want > limits.maxSteps then Ok(Some(StepsCannotCover))
      else Ok(None)
    }

    /** Reserving builds a fresh budget, which is validated again. */
    function Reserve(want: int): Result<Budget> {
      if StopReason(want) != Ok(None) then Raised
      else
        var b := Budget(limits, dispatches + 1, steps + want);
        if b.Valid() then Ok(b) else Raised
    }
  }

  /** Reserving succeeds exactly when no stop reason is given, and never breaks the validator. */
  lemma ReserveIffNoStopReason(b: Budget, want: int)
    requires b.Valid()
    ensures b.Reserve(want).Ok? <==> b.StopReason(want) == Ok(None)
    ensures b.Reserve(want).Ok? ==>
              var c := b.Reserve(want).value;
              c.Valid() && c.limits == b.limits && c.dispatches == b.dispatches + 1 && c.steps == b.steps + want
  {}

  function Sum(wants: seq<int>): int
    decreases |wants|
  {
    if wants == [] then 0 else Sum(wants[..|wants| - 1]) + wants[|wants| - 1]
  }

  /** A run of reservations, stopping at the first refusal. */
  function ReserveAll(b: Budget, wants: seq<int>): Result<Budget>
    decreases |wants|
  {
    if wants == [] then Ok(b)
    else match ReserveAll(b, wants[..|wants| - 1])
      case Raised => Raised
      case Ok(c) => c.Reserve(wants[|wants| - 1])
  }

  function Fresh(limits: Limits): Budget { Budget(limits, 0, 0) }

  /** Conservation over every run from zero: the counters are the number and the sum of the
      reservations, both inside the limits, and the run is no longer than either limit. */
  lemma {:induction false} ReservationsConserved(limits: Limits, wants: seq<int>)
    requires Fresh(limits).Valid() && ReserveAll(Fresh(limits), wants).Ok?
    ensures var b := ReserveAll(Fresh(limits), wants).value;
            && b.Valid() && b.limits == limits
            && b.dispatches == |wants| && b.steps == Sum(wants)
            && |wants| <= limits.maxDispatches && |wants| <= limits.maxSteps
    decreases |wants|
  {
    if wants != [] {
      ReservationsConserved(limits, wants[..|wants| - 1]);
    }
  }

  /** A run is refused exactly when some prefix of it meets a limit or asks for no stage. */
  lemma {:induction false} RunRefusedIff(limits: Limits, wants: seq<int>)
    requires Fresh(limits).Valid()
    ensures ReserveAll(Fresh(limits), wants).Ok? <==>
            && |wants| <= limits.maxDispatches && Sum(wants) <= limits.maxSteps
            && forall w | w in wants :: 1 <= w <= MAX_STAGE_STEPS
    decreases |wants|
  {
    if wants != [] {
      var init, last := wants[..|wants| - 1], wants[|wants| - 1];
      assert wants == init + [last];
      assert forall w :: w in wants <==> w in init || w == last;
      RunRefusedIff(limits, init);
      assert last in wants && Sum(wants) == Sum(init) + last && |wants| == |init| + 1;
      if ReserveAll(Fresh(limits), init).Ok? {
        ReservationsConserved(limits, init);
        var b := ReserveAll(Fresh(limits), init).value;
        ReserveIffNoStopReason(b, last);
        assert ReserveAll(Fresh(limits), wants) == b.Reserve(last);
        assert last in wants && Sum(wants) == b.steps + last;
      }
    }
  }
}
