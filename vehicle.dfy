/** The mode-switching controller of demo/highway_brake/vehicle_controller_golden_R3.py:
    a vehicle hard-brakes when the other agent comes closer than 30 and accelerates again
    once it is farther than 50; the controller's assertion requires a distance above 2. */
module Vehicle {
  import opened Outcomes

  datatype VehicleMode = Normal | Brake | Accel | HardBrake

  /** An agent's state; `dist` is read from the other agent though the class body does
      not declare it. */
  datatype State = State(x: real, y: real, theta: real, v: real, agentMode: VehicleMode, dist: real)

  /** The first rule: a cruising ego facing a close agent. */
  predicate HardBrakeRule(ego: State, other: State) {
    ego.agentMode == Normal && other.dist < 30.0
  }

  /** The second rule: a braking ego facing a distant agent. */
  predicate AccelRule(ego: State, other: State) {
    (ego.agentMode == Brake || ego.agentMode == HardBrake) && other.dist > 50.0
  }

  /** `decisionLogic(ego, other)`: a copy of ego whose mode the two rules may change; the
      closing assertion fails on a distance of at most 2, whatever the mode. */
  function DecisionLogic(ego: State, other: State): (r: Result<State>)
    ensures r.Err? <==> other.dist <= 2.0
    ensures r.Err? ==> r.error == AssertionFailed
    ensures r.Ok? ==> r.value == ego.(agentMode := r.value.agentMode)
    ensures r.Ok? && HardBrakeRule(ego, other) ==> r.value.agentMode == HardBrake
    ensures r.Ok? && AccelRule(ego, other) ==> r.value.agentMode == Accel
    ensures r.Ok? && !HardBrakeRule(ego, other) && !AccelRule(ego, other) ==> r.value.agentMode == ego.agentMode
  {
    var braked := if ego.agentMode == Normal && other.dist < 30.0 then ego.(agentMode := HardBrake) else ego;
    var output :=
      if (ego.agentMode == Brake || ego.agentMode == HardBrake) && other.dist > 50.0
      then braked.(agentMode := Accel)
      else braked;
    if other.dist > 2.0 then Ok(output) else Err(AssertionFailed)
  }

  /** Both guards read ego's mode, so at most one rule fires. */
  lemma RulesExclusive(ego: State, other: State)
    ensures !(HardBrakeRule(ego, other) && AccelRule(ego, other))
  {
  }

  /** The only mode changes are Normal to HardBrake and Brake or HardBrake to Accel;
      Accel is kept. */
  lemma ModeTransitions(ego: State, other: State)
    requires DecisionLogic(ego, other).Ok?
    ensures var m := DecisionLogic(ego, other).value.agentMode;
      match ego.agentMode
      case Normal => m == Normal || m == HardBrake
      case Brake => m == Brake || m == Accel
      case HardBrake => m == HardBrake || m == Accel
      case Accel => m == Accel
  {
  }

  /** Against the same other agent, a second decision changes nothing. */
  lemma DecisionIdempotent(ego: State, other: State)
    requires DecisionLogic(ego, other).Ok?
    ensures DecisionLogic(DecisionLogic(ego, other).value, other) == DecisionLogic(ego, other)
  {
    var once := DecisionLogic(ego, other).value;
    assert once == ego.(agentMode := once.agentMode);
    if HardBrakeRule(ego, other) {
      assert !AccelRule(once, other) && !HardBrakeRule(once, other);
    }
  }
}
