/**
 * The value types of the Pulse metrics engine: the enumerations a team's
 * signal is classified into and the records the calculations read and build.
 */
module MetricsTypes {
  import opened Optional

  /** Confidence in a metric, from the participation rate. */
  datatype ConfidenceLevel = Low | Moderate | High

  /** Direction of a change. */
  datatype TrendDirection = Rising | Stable | Declining

  /** The four ordered bands a 1-5 average falls into. */
  datatype PulseZone = UnderPressure | MixedSignals | SteadyState | HighConfidence

  /** How far today's check-ins have come. */
  datatype DayState = DayForming | SignalEmerging | DayComplete

  /** How far this week's check-ins have come. */
  datatype WeekState = WeekBuilding | SignalForming | WeekComplete

  /** How much measurement history a team has. */
  datatype DataMaturity = Calibrating | EstablishingBaseline | PatternForming | ReliableSignal

  /** How quickly momentum moves. */
  datatype Velocity = Slow | Moderate | Fast

  /** One day's aggregated check-ins: the mean score and how many answered. */
  datatype DailyPulse = DailyPulse(date: string, average: real, count: nat, participantCount: nat)

  /** A metric over one period, compared with the period before it. */
  datatype PulseMetric = PulseMetric(
    value: Option<real>,
    zone: Option<PulseZone>,
    trend: TrendDirection,
    delta: real,
    entryCount: nat,
    participantCount: nat,
    confidence: ConfidenceLevel)

  /** Momentum over a run of days. */
  datatype Momentum = Momentum(direction: TrendDirection, velocity: Velocity, daysTrending: nat)

  // Ordinals, so that "higher band" and "more confident" can be compared.

  function ZoneRank(z: PulseZone): nat
  {
    match z
    case UnderPressure => 0
    case MixedSignals => 1
    case SteadyState => 2
    case HighConfidence => 3
  }

  function ConfidenceRank(c: ConfidenceLevel): nat
  {
    match c
    case Low => 0
    case Moderate => 1
    case High => 2
  }

  /** Declining < Stable < Rising. */
  function TrendRank(t: TrendDirection): nat
  {
    match t
    case Declining => 0
    case Stable => 1
    case Rising => 2
  }

  function VelocityRank(v: Velocity): nat
  {
    match v
    case Slow => 0
    case Moderate => 1
    case Fast => 2
  }

  function DayStateRank(s: DayState): nat
  {
    match s
    case DayForming => 0
    case SignalEmerging => 1
    case DayComplete => 2
  }

  function WeekStateRank(s: WeekState): nat
  {
    match s
    case WeekBuilding => 0
    case SignalForming => 1
    case WeekComplete => 2
  }

  function MaturityRank(m: DataMaturity): nat
  {
    match m
    case Calibrating => 0
    case EstablishingBaseline => 1
    case PatternForming => 2
    case ReliableSignal => 3
  }

  /** Rising and declining swapped; stable stays. */
  function Mirror(t: TrendDirection): TrendDirection
  {
    match t
    case Rising => Declining
    case Declining => Rising
    case Stable => Stable
  }
}
