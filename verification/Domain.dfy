/** Vocabulary shared by the metric producer, Guardian, Scout and the Analysis Commit. */
module Domain {
  datatype MetricCode =
    | RiseRate | HeadConcentration | InternalDivergence | Crowding | LiquidityWeakening
    | CoreWeakening | BreadthCollapse | StampedeRisk | T1Chasing | EarlySignalFailure
    | EarlyActivity | HealthyBreadth | RelativeStrength | TurnoverConfirmation
    | EtfConfirmation | StyleSupport | LowCrowding | ContinuityStrengthening

  const GUARDIAN_CODES: set<MetricCode> :=
    {RiseRate, HeadConcentration, InternalDivergence, Crowding, LiquidityWeakening,
     CoreWeakening, BreadthCollapse, StampedeRisk, T1Chasing, EarlySignalFailure}

  const SCOUT_CODES: set<MetricCode> :=
    {EarlyActivity, HealthyBreadth, RelativeStrength, TurnoverConfirmation,
     EtfConfirmation, StyleSupport, LowCrowding, ContinuityStrengthening}

  const ALL_CODES: set<MetricCode> := GUARDIAN_CODES + SCOUT_CODES

  datatype Fitness = Fit | FitWithLimitations | Unfit | UnknownFitness

  datatype Health = Healthy | Degraded | Unhealthy | UnknownHealth

  datatype Availability = Available | WarmingUp | Suspended | Unavailable

  /** The session phase of an exchange; only the first two are continuous trading. */
  datatype SessionPhase = ContinuousAm | ContinuousPm | Closed | OtherPhase(name: string)

  predicate InContinuousSession(p: SessionPhase) { p == ContinuousAm || p == ContinuousPm }

  /** Times are whole microseconds, the resolution the program writes. */
  const SECOND: nat := 1_000_000
  const MINUTE: nat := 60 * SECOND
  const HOUR: nat := 60 * MINUTE
}
