/**
 Onboarding navigation (frontend/components/ui/onboarding.tsx, OnboardingRoot, with
 its own state cells).  Step 1 has sub-steps 0..maxStepValue; the later steps have none.
 */
module Onboarding {
  datatype Position = Position(step: nat, sub: nat)

  datatype Tour = Tour(totalSteps: nat, maxStepValue: nat)

  predicate TourOk(t: Tour) {
    t.totalSteps >= 1
  }

  predicate Valid(t: Tour, p: Position) {
    && 1 <= p.step <= t.totalSteps
    && p.sub <= (if p.step == 1 then t.maxStepValue else 0)
  }

  function Next(t: Tour, p: Position): Position {
    if p.step == 1 && p.sub < t.maxStepValue then p.(sub := p.sub + 1)
    else if p.step < t.totalSteps then Position(p.step + 1, 0)
    else p
  }

  function Back(t: Tour, p: Position): Position {
    if p.step == 1 && p.sub > 0 then p.(sub := p.sub - 1)
    else if p.step == 2 then Position(1, t.maxStepValue)
    else if p.step > 1 then p.(step := p.step - 1)
    else p
  }

  predicate CanGoBack(p: Position) {
    p.step > 1 || p.sub > 0
  }

  /** The place of a position on the line. */
  function Rank(t: Tour, p: Position): int {
    if p.step == 1 then p.sub else t.maxStepValue + p.step - 1
  }

  function LastRank(t: Tour): int {
    t.maxStepValue + t.totalSteps - 1
  }

  lemma RankIsInjective(t: Tour, p: Position, q: Position)
    requires Valid(t, p) && Valid(t, q) && Rank(t, p) == Rank(t, q)
    ensures p == q
  {
  }

  /** Navigation is a walk on a line of LastRank + 1 places. */
  lemma WalkOnALine(t: Tour, p: Position)
    requires TourOk(t) && Valid(t, p)
    ensures 0 <= Rank(t, p) <= LastRank(t)
    ensures Valid(t, Next(t, p)) && Valid(t, Back(t, p))
    ensures Rank(t, Next(t, p)) == if Rank(t, p) == LastRank(t) then LastRank(t) else Rank(t, p) + 1
    ensures Rank(t, Back(t, p)) == if Rank(t, p) == 0 then 0 else Rank(t, p) - 1
    ensures CanGoBack(p) <==> Rank(t, p) > 0
    ensures Rank(t, p) < LastRank(t) ==> Back(t, Next(t, p)) == p
    ensures Rank(t, p) > 0 ==> Next(t, Back(t, p)) == p
  {
  }

  function NextTimes(t: Tour, p: Position, n: nat): Position
    decreases n
  {
    if n == 0 then p else NextTimes(t, Next(t, p), n - 1)
  }

  /** From anywhere the end is reached after exactly the remaining number of nexts, and kept. */
  lemma {:induction false} NextsReachTheEnd(t: Tour, p: Position, n: nat)
    requires TourOk(t) && Valid(t, p)
    ensures Valid(t, NextTimes(t, p, n))
    ensures Rank(t, NextTimes(t, p, n)) == if Rank(t, p) + n <= LastRank(t) then Rank(t, p) + n else LastRank(t)
    ensures Rank(t, p) + n >= LastRank(t) ==> NextTimes(t, p, n).step == t.totalSteps
    decreases n
  {
    if n > 0 {
      WalkOnALine(t, p);
      NextsReachTheEnd(t, Next(t, p), n - 1);
    }
  }

  class OnboardingState {
    const tour: Tour
    var currentStep: nat
    var stepValue: nat

    constructor (tour: Tour, defaultValue: nat, defaultStepValue: nat)
      ensures this.tour == tour && State() == Position(defaultValue, defaultStepValue)
    {
      this.tour := tour;
      currentStep, stepValue := defaultValue, defaultStepValue;
    }

    function State(): Position
      reads this
    {
      Position(currentStep, stepValue)
    }

    method HandleNext()
      modifies this
      ensures State() == Next(tour, old(State()))
    {
      if currentStep == 1 && stepValue < tour.maxStepValue {
        stepValue := stepValue + 1;
      } else if currentStep < tour.totalSteps {
        stepValue := 0;
        currentStep := currentStep + 1;
      }
    }

    method HandleBack()
      modifies this
      ensures State() == Back(tour, old(State()))
    {
      if currentStep == 1 && stepValue > 0 {
        stepValue := stepValue - 1;
      } else if currentStep == 2 {
        currentStep := 1;
        stepValue := tour.maxStepValue;
      } else if currentStep > 1 {
        currentStep := currentStep - 1;
      }
    }
  }
}
