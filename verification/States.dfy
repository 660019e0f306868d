/** Gap severity and the two state machines: sonar runs and coverage gaps. */
module States {

  datatype Severity = Minor | Major | Critical

  function SeverityForRatio(ratio: real): Severity {
    if ratio >= 0.12 then Critical else if ratio >= 0.05 then Major else Minor
  }

  function SeverityRank(s: Severity): nat {
    match s case Minor => 0 case Major => 1 case Critical => 2
  }

  lemma SeverityIsMonotone(low: real, high: real)
    requires low <= high
    ensures SeverityRank(SeverityForRatio(low)) <= SeverityRank(SeverityForRatio(high))
  {
  }

  datatype RunState = Imported | QualityChecked | Processing | Processed | Rejected | Superseded {
    /** The run transition table. */
    predicate CanTransition(target: RunState) {
      match this
      case Imported => target in {QualityChecked, Rejected}
      case QualityChecked => target in {Processing, Rejected}
      case Processing => target in {Processed, Rejected}
      case Processed => target == Superseded
      case Rejected => false
      case Superseded => false
    }

    /** Every transition climbs; the longest climb has four steps. */
    function Rank(): nat {
      match this
      case Imported => 0
      case QualityChecked => 1
      case Processing => 2
      case Processed => 3
      case Rejected => 4
      case Superseded => 4
    }
  }

  datatype GapState = Detected | Reviewed | Accepted | FalsePositive | Resurveyed | Closed {
    /** The gap transition table. */
    predicate CanTransition(target: GapState) {
      match this
      case Detected => target == Reviewed
      case Reviewed => target in {Accepted, FalsePositive}
      case Accepted => target == Resurveyed
      case FalsePositive => target == Closed
      case Resurveyed => target == Closed
      case Closed => false
    }

    function Rank(): nat {
      match this
      case Detected => 0
      case Reviewed => 1
      case Accepted => 2
      case FalsePositive => 3
      case Resurveyed => 3
      case Closed => 4
    }
  }

  lemma TransitionsClimb()
    ensures forall s: RunState, t: RunState :: s.CanTransition(t) ==> s.Rank() < t.Rank() <= 4
    ensures forall s: GapState, t: GapState :: s.CanTransition(t) ==> s.Rank() < t.Rank() <= 4
  {
  }
}
