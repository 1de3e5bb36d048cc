/**
 * The Pulse metrics engine: stateless classifiers and folds that turn per-day
 * check-in aggregates into zones, confidence, trends, momentum and the
 * day / week / maturity ladders.
 */
module PulseCalculations {
  import opened Optional
  import opened MetricsTypes
  import JsMath

  // ---------------------------------------------------------------------------
  // Thresholds
  // ---------------------------------------------------------------------------

  /** One row of the zone table: the nominal closed band of a zone. */
  datatype ZoneBand = ZoneBand(min: real, max: real)

  /** The zone table. Only the upper bounds decide a zone; the lower bounds are nominal. */
  function ZoneThreshold(z: PulseZone): ZoneBand
  {
    match z
    case UnderPressure => ZoneBand(1.0, 2.4)
    case MixedSignals => ZoneBand(2.5, 3.4)
    case SteadyState => ZoneBand(3.5, 4.0)
    case HighConfidence => ZoneBand(4.1, 5.0)
  }

  /** Participation rate below which confidence is low. */
  const CONFIDENCE_LOW: real := 0.3
  /** Participation rate below which confidence is at most moderate. */
  const CONFIDENCE_MODERATE: real := 0.6

  /** Smallest change, either way, that counts as rising or declining. */
  const TREND_THRESHOLD: real := 0.3

  /** The zone just below `z` (UnderPressure has none and maps to itself). */
  function ZoneBelow(z: PulseZone): PulseZone
  {
    match z
    case UnderPressure => UnderPressure
    case MixedSignals => UnderPressure
    case SteadyState => MixedSignals
    case HighConfidence => SteadyState
  }

  // ---------------------------------------------------------------------------
  // Zone
  // ---------------------------------------------------------------------------

  /**
   * The zone of an average: the lowest zone whose upper bound is at least the
   * value, HighConfidence above all bounds; no zone for no value.
   */
  function ValueToZone(value: Option<real>): (zone: Option<PulseZone>)
    ensures zone.None? <==> value.None?
    ensures zone.Some? && zone.value != HighConfidence ==> value.value <= ZoneThreshold(zone.value).max
    ensures zone.Some? && zone.value != UnderPressure ==> value.value > ZoneThreshold(ZoneBelow(zone.value)).max
  {
    match value
    case None => None
    case Some(v) =>
      if v <= ZoneThreshold(UnderPressure).max then Some(UnderPressure)
      else if v <= ZoneThreshold(MixedSignals).max then Some(MixedSignals)
      else if v <= ZoneThreshold(SteadyState).max then Some(SteadyState)
      else Some(HighConfidence)
  }

  /** A higher average never lands in a lower zone. */
  lemma ZoneMonotone(v: real, w: real)
    requires v <= w
    ensures ZoneRank(ValueToZone(Some(v)).value) <= ZoneRank(ValueToZone(Some(w)).value)
  {
  }

  /** Every value inside a zone's nominal band is classified as that zone. */
  lemma ZoneAgreesWithTable(v: real, z: PulseZone)
    requires ZoneThreshold(z).min <= v <= ZoneThreshold(z).max
    ensures ValueToZone(Some(v)) == Some(z)
  {
  }

  /** The gaps between nominal bands belong to the zone above: 2.4 < v < 2.5 is mixed signals. */
  lemma ZoneGapsGoUp(v: real, z: PulseZone)
    requires z != HighConfidence
    requires ZoneThreshold(z).max < v && ZoneThreshold(ZoneAbove(z)).min > v
    ensures ValueToZone(Some(v)) == Some(ZoneAbove(z))
  {
  }

  function ZoneAbove(z: PulseZone): PulseZone
  {
    match z
    case UnderPressure => MixedSignals
    case MixedSignals => SteadyState
    case SteadyState => HighConfidence
    case HighConfidence => HighConfidence
  }

  // ---------------------------------------------------------------------------
  // Confidence
  // ---------------------------------------------------------------------------

  /**
   * Confidence from the participation rate entries / participants; low when
   * there are no participants, whatever the number of entries.
   */
  function CalculateConfidence(entryCount: nat, participantCount: nat): (c: ConfidenceLevel)
    ensures participantCount == 0 ==> c == Low
    ensures participantCount > 0 ==>
      (c == Low <==> entryCount as real < CONFIDENCE_LOW * participantCount as real)
    ensures participantCount > 0 ==>
      (c == High <==> entryCount as real >= CONFIDENCE_MODERATE * participantCount as real)
  {
    if participantCount == 0 then Low
    else
      var rate := entryCount as real / participantCount as real;
      RateScales(entryCount as real, participantCount as real, CONFIDENCE_LOW);
      RateScales(entryCount as real, participantCount as real, CONFIDENCE_MODERATE);
      if rate < CONFIDENCE_LOW then Low
      else if rate < CONFIDENCE_MODERATE then ConfidenceLevel.Moderate
      else High
  }

  /** Comparing a rate with a threshold is comparing the numerator with a scaled threshold. */
  lemma RateScales(e: real, p: real, t: real)
    requires p > 0.0
    ensures e / p < t <==> e < t * p
  {
    assert e / p * p == e;
    if e / p < t {
      assert e / p * p < t * p;
    } else {
      assert e / p * p >= t * p;
    }
  }

  /** More entries never lower confidence. */
  lemma ConfidenceMonotoneInEntries(e1: nat, e2: nat, p: nat)
    requires e1 <= e2
    ensures ConfidenceRank(CalculateConfidence(e1, p)) <= ConfidenceRank(CalculateConfidence(e2, p))
  {
    if p > 0 {
      var c1, c2 := CalculateConfidence(e1, p), CalculateConfidence(e2, p);
      assert c2 == Low ==> c1 == Low;
      assert c1 == High ==> c2 == High;
    }
  }

  /** No entries means low confidence, whatever the team size (an empty team included). */
  lemma NoEntriesIsLow(p: nat)
    ensures CalculateConfidence(0, p) == Low
  {
  }

  // ---------------------------------------------------------------------------
  // Trend
  // ---------------------------------------------------------------------------

  /** A three-way classification of a change, with a dead band of 0.3 either way. */
  function CalculateTrend(delta: real): (t: TrendDirection)
    ensures t == Rising <==> delta >= TREND_THRESHOLD
    ensures t == Declining <==> delta <= -TREND_THRESHOLD
    ensures t == Stable <==> -TREND_THRESHOLD < delta < TREND_THRESHOLD
  {
    if delta >= TREND_THRESHOLD then Rising
    else if delta <= -TREND_THRESHOLD then Declining
    else Stable
  }

  /** Negating a change mirrors its trend. */
  lemma TrendMirror(d: real)
    ensures CalculateTrend(-d) == Mirror(CalculateTrend(d))
  {
  }

  /** A larger change never gives a lower trend. */
  lemma TrendMonotone(d1: real, d2: real)
    requires d1 <= d2
    ensures TrendRank(CalculateTrend(d1)) <= TrendRank(CalculateTrend(d2))
  {
  }

  // ---------------------------------------------------------------------------
  // Count-weighted average
  // ---------------------------------------------------------------------------

  /** Sum of the day counts, folded from the left. */
  function TotalCount(data: seq<DailyPulse>): nat
  {
    if data == [] then 0 else TotalCount(data[..|data| - 1]) + data[|data| - 1].count
  }

  /** Sum of average * count over the days, folded from the left. */
  function TotalWeighted(data: seq<DailyPulse>): real
  {
    if data == [] then 0.0
    else TotalWeighted(data[..|data| - 1]) + data[|data| - 1].average * data[|data| - 1].count as real
  }

  /** The total count is zero exactly when every day has count zero. */
  lemma {:induction false} TotalCountZero(data: seq<DailyPulse>)
    ensures TotalCount(data) == 0 <==> forall i :: 0 <= i < |data| ==> data[i].count == 0
  {
    if data != [] {
      var init := data[..|data| - 1];
      TotalCountZero(init);
      assert forall i :: 0 <= i < |init| ==> init[i] == data[i];
    }
  }

  /**
   * The count-weighted mean of the day averages; none for no days or when no
   * day has any entry.
   */
  function CalculateAverage(data: seq<DailyPulse>): (avg: Option<real>)
    ensures avg.None? <==> forall i :: 0 <= i < |data| ==> data[i].count == 0
    ensures avg.Some? ==> avg.value * TotalCount(data) as real == TotalWeighted(data)
  {
    TotalCountZero(data);
    if |data| == 0 then None
    else
      var totalWeighted := TotalWeighted(data);
      var totalCount := TotalCount(data);
      if totalCount == 0 then None
      else Some(totalWeighted / totalCount as real)
  }

  /** lo * count <= average * count <= hi * count, for a non-negative count. */
  lemma ScaleBetween(lo: real, a: real, hi: real, c: real)
    requires c >= 0.0 && (c > 0.0 ==> lo <= a <= hi)
    ensures lo * c <= a * c <= hi * c
  {
  }

  /** a < b scales to a * n < b * n for a positive n. */
  lemma ScaleStrict(a: real, b: real, n: real)
    requires a < b && n > 0.0
    ensures a * n < b * n
  {
  }

  /** Adding a strictly smaller term keeps a sum strictly smaller. */
  lemma AddStrict(a: real, b: real, x: real, y: real)
    requires a <= b && x < y
    ensures a + x < b + y
  {
  }

  /** The weighted sum lies between lo and hi times the total count. */
  lemma WeightedBetween(data: seq<DailyPulse>, lo: real, hi: real)
    requires forall i :: 0 <= i < |data| && data[i].count > 0 ==> lo <= data[i].average <= hi
    ensures lo * TotalCount(data) as real <= TotalWeighted(data) <= hi * TotalCount(data) as real
  {
    WeightedAtLeast(data, lo);
    WeightedAtMost(data, hi);
  }

  /** The weighted sum is at least lo times the total count. */
  lemma {:induction false} WeightedAtLeast(data: seq<DailyPulse>, lo: real)
    requires forall i :: 0 <= i < |data| && data[i].count > 0 ==> lo <= data[i].average
    ensures lo * TotalCount(data) as real <= TotalWeighted(data)
  {
    if data != [] {
      var init, last := data[..|data| - 1], data[|data| - 1];
      assert forall i :: 0 <= i < |init| ==> init[i] == data[i];
      WeightedAtLeast(init, lo);
      AtLeastStep(lo, TotalCount(init) as real, last.count as real, TotalWeighted(init), last.average,
        TotalCount(data) as real, TotalWeighted(data));
    }
  }

  /** The weighted sum is at most hi times the total count. */
  lemma {:induction false} WeightedAtMost(data: seq<DailyPulse>, hi: real)
    requires forall i :: 0 <= i < |data| && data[i].count > 0 ==> data[i].average <= hi
    ensures TotalWeighted(data) <= hi * TotalCount(data) as real
  {
    if data != [] {
      var init, last := data[..|data| - 1], data[|data| - 1];
      assert forall i :: 0 <= i < |init| ==> init[i] == data[i];
      WeightedAtMost(init, hi);
      AtMostStep(hi, TotalCount(init) as real, last.count as real, TotalWeighted(init), last.average,
        TotalCount(data) as real, TotalWeighted(data));
    }
  }

  /** One step of WeightedAtLeast, on the totals so far and one more day. */
  lemma AtLeastStep(lo: real, t: real, c: real, w: real, a: real, total: real, weighted: real)
    requires lo * t <= w
    requires c >= 0.0 && (c > 0.0 ==> lo <= a)
    requires total == t + c && weighted == w + a * c
    ensures lo * total <= weighted
  {
    ScaleBetween(lo, a, a, c);
    assert lo * (t + c) == lo * t + lo * c;
  }

  /** One step of WeightedAtMost, on the totals so far and one more day. */
  lemma AtMostStep(hi: real, t: real, c: real, w: real, a: real, total: real, weighted: real)
    requires w <= hi * t
    requires c >= 0.0 && (c > 0.0 ==> a <= hi)
    requires total == t + c && weighted == w + a * c
    ensures weighted <= hi * total
  {
    ScaleBetween(a, a, hi, c);
    assert hi * (t + c) == hi * t + hi * c;
  }

  /** A quotient bounded through its numerator. */
  lemma QuotientBetween(w: real, t: real, lo: real, hi: real)
    requires t > 0.0 && lo * t <= w <= hi * t
    ensures lo <= w / t <= hi
  {
    assert w / t * t == w;
  }

  /**
   * The weighted average lies within any range that holds every day with
   * entries; in particular between the least and the greatest such average.
   */
  lemma AverageWithinRange(data: seq<DailyPulse>, lo: real, hi: real)
    requires forall i :: 0 <= i < |data| && data[i].count > 0 ==> lo <= data[i].average <= hi
    requires CalculateAverage(data).Some?
    ensures lo <= CalculateAverage(data).value <= hi
  {
    WeightedBetween(data, lo, hi);
    QuotientBetween(TotalWeighted(data), TotalCount(data) as real, lo, hi);
  }

  /** When every day with entries lies above c (and some day has entries) so does the weighted sum. */
  lemma {:induction false} WeightedAbove(data: seq<DailyPulse>, c: real)
    requires forall i :: 0 <= i < |data| && data[i].count > 0 ==> data[i].average > c
    requires TotalCount(data) > 0
    ensures TotalWeighted(data) > c * TotalCount(data) as real
  {
    var init, last := data[..|data| - 1], data[|data| - 1];
    assert forall i :: 0 <= i < |init| ==> init[i] == data[i];
    var n, t, w := last.count as real, TotalCount(init) as real, TotalWeighted(init);
    var cn, cw := c * n, last.average * n;
    assert TotalCount(data) as real == t + n;
    assert TotalWeighted(data) == w + cw;
    assert c * TotalCount(data) as real == c * t + cn;
    if TotalCount(init) > 0 {
      WeightedAbove(init, c);
      assert w > c * t;
    } else {
      TotalCountZero(init);
      WeightedBetween(init, c, c);
      assert w == c * t;
    }
    if last.count > 0 {
      ScaleStrict(c, last.average, n);
      AddStrict(c * t, w, cn, cw);
    } else {
      assert n == 0.0;
      assert w > c * t;
    }
  }

  /** When every day with entries lies below c (and some day has entries) so does the weighted sum. */
  lemma {:induction false} WeightedBelow(data: seq<DailyPulse>, c: real)
    requires forall i :: 0 <= i < |data| && data[i].count > 0 ==> data[i].average < c
    requires TotalCount(data) > 0
    ensures TotalWeighted(data) < c * TotalCount(data) as real
  {
    var init, last := data[..|data| - 1], data[|data| - 1];
    assert forall i :: 0 <= i < |init| ==> init[i] == data[i];
    var n, t, w := last.count as real, TotalCount(init) as real, TotalWeighted(init);
    var cn, cw := c * n, last.average * n;
    assert TotalCount(data) as real == t + n;
    assert TotalWeighted(data) == w + cw;
    assert c * TotalCount(data) as real == c * t + cn;
    if TotalCount(init) > 0 {
      WeightedBelow(init, c);
      assert w < c * t;
    } else {
      TotalCountZero(init);
      WeightedBetween(init, c, c);
      assert w == c * t;
    }
    if last.count > 0 {
      ScaleStrict(last.average, c, n);
      AddStrict(w, c * t, cw, cn);
    } else {
      assert n == 0.0;
      assert w < c * t;
    }
  }

  /** The weighted average is attained from below and from above by days that have entries. */
  lemma AverageBetweenDays(data: seq<DailyPulse>)
    requires CalculateAverage(data).Some?
    ensures exists i :: 0 <= i < |data| && data[i].count > 0 && data[i].average <= CalculateAverage(data).value
    ensures exists j :: 0 <= j < |data| && data[j].count > 0 && data[j].average >= CalculateAverage(data).value
  {
    var v := CalculateAverage(data).value;
    var t := TotalCount(data) as real;
    assert v * t == TotalWeighted(data);
    if forall i :: 0 <= i < |data| && data[i].count > 0 ==> data[i].average > v {
      WeightedAbove(data, v);
      assert false;
    }
    if forall j :: 0 <= j < |data| && data[j].count > 0 ==> data[j].average < v {
      WeightedBelow(data, v);
      assert false;
    }
  }

  /** A single day with entries averages to its own average. */
  lemma SingleDayAverage(d: DailyPulse)
    requires d.count > 0
    ensures CalculateAverage([d]) == Some(d.average)
  {
    assert [d][..0] == [];
    assert TotalCount([d]) == d.count;
    assert TotalWeighted([d]) == d.average * d.count as real;
    assert d.average * d.count as real / d.count as real == d.average;
  }

  /** Days with more entries weigh more: 10 at 4.5 and 2 at 4.0 average to 53/12, high confidence. */
  lemma WeightedExample()
    ensures CalculateAverage([DailyPulse("d1", 4.5, 10, 12), DailyPulse("d2", 4.0, 2, 12)]) == Some(53.0 / 12.0)
    ensures ValueToZone(Some(53.0 / 12.0)) == Some(HighConfidence)
  {
    var data := [DailyPulse("d1", 4.5, 10, 12), DailyPulse("d2", 4.0, 2, 12)];
    assert data[..1] == [data[0]];
    assert data[..1][..0] == [];
    assert TotalCount(data) == 12;
    assert TotalWeighted(data) == 53.0;
  }

  // ---------------------------------------------------------------------------
  // Pulse metric
  // ---------------------------------------------------------------------------

  /** `Math.round(x * 10) / 10`: the nearest tenth, halves going up. */
  function RoundToTenth(x: real): (r: real)
    ensures (r * 10.0).Floor as real == r * 10.0
    ensures x - 0.05 < r <= x + 0.05
  {
    JsMath.Round(x * 10.0) as real / 10.0
  }

  /** Current minus previous average, or 0 when either period has no average. */
  function RawDelta(currentData: seq<DailyPulse>, previousData: seq<DailyPulse>): real
  {
    match (CalculateAverage(currentData), CalculateAverage(previousData))
    case (Some(c), Some(p)) => c - p
    case _ => 0.0
  }

  /**
   * The metric of a period against the previous one. The trend is taken from
   * the unrounded delta; the stored delta is rounded to a tenth. Absent data
   * degrades to no value, no zone, zero delta, stable trend.
   */
  function BuildPulseMetric(currentData: seq<DailyPulse>, previousData: seq<DailyPulse>, participantCount: nat)
    : (m: PulseMetric)
    ensures m.value == CalculateAverage(currentData)
    ensures m.zone == ValueToZone(m.value)
    ensures m.value.None? <==> m.entryCount == 0
    ensures m.entryCount == TotalCount(currentData)
    ensures m.participantCount == participantCount
    ensures m.confidence == CalculateConfidence(m.entryCount, participantCount)
    ensures m.entryCount == 0 ==> m.confidence == Low
    ensures m.trend == CalculateTrend(RawDelta(currentData, previousData))
    ensures m.delta == RoundToTenth(RawDelta(currentData, previousData))
    ensures m.value.None? || CalculateAverage(previousData).None? ==> m.delta == 0.0 && m.trend == Stable
  {
    var currentAvg := CalculateAverage(currentData);
    var previousAvg := CalculateAverage(previousData);
    var entryCount := TotalCount(currentData);
    TotalCountZero(currentData);
    var delta := if currentAvg.Some? && previousAvg.Some? then currentAvg.value - previousAvg.value else 0.0;
    PulseMetric(
      currentAvg,
      ValueToZone(currentAvg),
      CalculateTrend(delta),
      RoundToTenth(delta),
      entryCount,
      participantCount,
      CalculateConfidence(entryCount, participantCount))
  }

  /** The same data in both periods gives a zero delta and a stable trend. */
  lemma IdenticalPeriodsAreStable(data: seq<DailyPulse>, participantCount: nat)
    ensures BuildPulseMetric(data, data, participantCount).delta == 0.0
    ensures BuildPulseMetric(data, data, participantCount).trend == Stable
  {
  }

  /**
   * The trend ignores the rounding of the stored delta: a raw change of 0.26
   * is stored as 0.3 yet has a stable trend.
   */
  lemma RoundedDeltaCanOutrunTrend(currentData: seq<DailyPulse>, previousData: seq<DailyPulse>, participantCount: nat)
    requires RawDelta(currentData, previousData) == 0.26
    ensures BuildPulseMetric(currentData, previousData, participantCount).delta == 0.3
    ensures BuildPulseMetric(currentData, previousData, participantCount).trend == Stable
  {
    assert JsMath.Round(2.6) == 3;
  }

  // ---------------------------------------------------------------------------
  // Momentum
  // ---------------------------------------------------------------------------

  /** The day-over-day changes of the averages, oldest first. */
  function DayChanges(data: seq<DailyPulse>): seq<real>
  {
    if |data| <= 1 then []
    else seq(|data| - 1, i requires 0 <= i < |data| - 1 => data[i + 1].average - data[i].average)
  }

  /**
   * The streak that `changes` (scanned from the newest back) adds to a run in
   * direction d: matching changes count, stable ones are passed over, the
   * first opposite change ends the scan. A stable d has no run.
   */
  function Run(changes: seq<real>, d: TrendDirection): nat
  {
    if d == Stable || changes == [] then 0
    else
      var t := CalculateTrend(changes[|changes| - 1]);
      if t == d then 1 + Run(changes[..|changes| - 1], d)
      else if t == Stable then Run(changes[..|changes| - 1], d)
      else 0
  }

  /** Days trending: the newest change's direction, followed back as far as Run goes. */
  function Streak(changes: seq<real>): nat
  {
    if changes == [] then 0
    else
      var d := CalculateTrend(changes[|changes| - 1]);
      (if d == Stable then 0 else 1) + Run(changes[..|changes| - 1], d)
  }

  /** One step of the backward scan: how the change at index i extends the run over changes[..i]. */
  lemma RunStep(changes: seq<real>, i: nat, d: TrendDirection)
    requires i < |changes|
    ensures Run(changes[..i + 1], d) ==
      if d == Stable then 0
      else if CalculateTrend(changes[i]) == d then 1 + Run(changes[..i], d)
      else if CalculateTrend(changes[i]) == Stable then Run(changes[..i], d)
      else 0
  {
    assert changes[..i + 1][..i] == changes[..i];
  }

  /** The number of changes whose trend is d. */
  function CountTrend(changes: seq<real>, d: TrendDirection): nat
  {
    if changes == [] then 0
    else CountTrend(changes[..|changes| - 1], d) + (if CalculateTrend(changes[|changes| - 1]) == d then 1 else 0)
  }

  /** A run never exceeds the changes it scans. */
  lemma {:induction false} RunBound(changes: seq<real>, d: TrendDirection)
    ensures Run(changes, d) <= |changes|
  {
    if d != Stable && changes != [] {
      RunBound(changes[..|changes| - 1], d);
    }
  }

  /**
   * With no opposite change at all, the run is the number of changes in its
   * direction.
   */
  lemma {:induction false} RunWithoutOpposite(changes: seq<real>, d: TrendDirection)
    requires d != Stable
    requires forall i :: 0 <= i < |changes| ==> CalculateTrend(changes[i]) != Mirror(d)
    ensures Run(changes, d) == CountTrend(changes, d)
  {
    if changes != [] {
      var init := changes[..|changes| - 1];
      assert forall i :: 0 <= i < |init| ==> init[i] == changes[i];
      RunWithoutOpposite(init, d);
    }
  }

  /**
   * The run counts exactly the changes in its direction after the newest
   * opposite change at index k.
   */
  lemma {:induction false} RunAfterOpposite(changes: seq<real>, d: TrendDirection, k: nat)
    requires d != Stable
    requires k < |changes| && CalculateTrend(changes[k]) == Mirror(d)
    requires forall i :: k < i < |changes| ==> CalculateTrend(changes[i]) != Mirror(d)
    ensures Run(changes, d) == CountTrend(changes[k + 1..], d)
  {
    var init := changes[..|changes| - 1];
    if k == |changes| - 1 {
      assert changes[k + 1..] == [];
    } else {
      assert forall i :: 0 <= i < |init| ==> init[i] == changes[i];
      RunAfterOpposite(init, d, k);
      assert changes[k + 1..][..|changes[k + 1..]| - 1] == init[k + 1..];
    }
  }

  /** The streak is zero exactly when there is no change or the newest change is stable. */
  lemma StreakZeroIff(changes: seq<real>)
    ensures Streak(changes) == 0 <==> changes == [] || CalculateTrend(changes[|changes| - 1]) == Stable
  {
  }

  /** The streak never exceeds the number of changes. */
  lemma StreakBound(changes: seq<real>)
    ensures Streak(changes) <= |changes|
  {
    if changes != [] {
      RunBound(changes[..|changes| - 1], CalculateTrend(changes[|changes| - 1]));
    }
  }

  /**
   * An independent reading of the streak: when the newest change points in
   * direction d, the streak is the number of d-changes since the newest
   * opposite change (or in all the changes when there is none).
   */
  lemma StreakCountsSinceOpposite(changes: seq<real>, d: TrendDirection)
    requires changes != [] && d != Stable && CalculateTrend(changes[|changes| - 1]) == d
    ensures (forall i :: 0 <= i < |changes| ==> CalculateTrend(changes[i]) != Mirror(d)) ==>
      Streak(changes) == CountTrend(changes, d)
    ensures forall k ::
      (0 <= k < |changes| && CalculateTrend(changes[k]) == Mirror(d) &&
       (forall i :: k < i < |changes| ==> CalculateTrend(changes[i]) != Mirror(d)))
      ==> Streak(changes) == CountTrend(changes[k + 1..], d)
  {
    var init := changes[..|changes| - 1];
    assert forall i :: 0 <= i < |init| ==> init[i] == changes[i];
    if forall i :: 0 <= i < |changes| ==> CalculateTrend(changes[i]) != Mirror(d) {
      RunWithoutOpposite(init, d);
    }
    forall k | 0 <= k < |changes| && CalculateTrend(changes[k]) == Mirror(d) &&
      (forall i :: k < i < |changes| ==> CalculateTrend(changes[i]) != Mirror(d))
      ensures Streak(changes) == CountTrend(changes[k + 1..], d)
    {
      assert k < |changes| - 1;
      RunAfterOpposite(init, d, k);
      assert changes[k + 1..][..|changes[k + 1..]| - 1] == init[k + 1..];
    }
  }

  /** The last at most three changes (`changes.slice(-3)`). */
  function RecentChanges(changes: seq<real>): seq<real>
  {
    if |changes| <= 3 then changes else changes[|changes| - 3..]
  }

  /** Sum of a list of changes, folded from the left. */
  function Sum(xs: seq<real>): real
  {
    if xs == [] then 0.0 else Sum(xs[..|xs| - 1]) + xs[|xs| - 1]
  }

  /** The mean of the recent changes (0 when there are none). */
  function RecentMean(changes: seq<real>): real
  {
    var recent := RecentChanges(changes);
    if |recent| == 0 then 0.0 else Sum(recent) / |recent| as real
  }

  /** Velocity from the size of the mean recent change. */
  function VelocityOf(avgChange: real): (v: Velocity)
    ensures v == Fast <==> JsMath.Abs(avgChange) > 0.5
    ensures v == Velocity.Moderate <==> 0.3 < JsMath.Abs(avgChange) <= 0.5
    ensures v == Slow <==> JsMath.Abs(avgChange) <= 0.3
  {
    var absChange := JsMath.Abs(avgChange);
    if absChange > 0.5 then Fast else if absChange > 0.3 then Velocity.Moderate else Slow
  }

  /** A larger average change, either way, never moves more slowly. */
  lemma VelocityMonotone(a: real, b: real)
    requires JsMath.Abs(a) <= JsMath.Abs(b)
    ensures VelocityRank(VelocityOf(a)) <= VelocityRank(VelocityOf(b))
  {
  }

  /**
   * Momentum over chronologically ordered days: the direction of the newest
   * day-over-day change, how many changes keep that direction (scanning back,
   * passing over stable ones, stopping at the first opposite one), and a
   * velocity from the mean of the last three changes.
   */
  method CalculateMomentum(dailyData: seq<DailyPulse>) returns (m: Momentum)
    ensures |dailyData| < 2 ==> m == Momentum(Stable, Slow, 0)
    ensures |dailyData| >= 2 ==>
      m.direction == CalculateTrend(dailyData[|dailyData| - 1].average - dailyData[|dailyData| - 2].average)
    ensures |dailyData| >= 2 ==> m.velocity == VelocityOf(RecentMean(DayChanges(dailyData)))
    ensures m.daysTrending == Streak(DayChanges(dailyData))
    ensures m.daysTrending == 0 <==>
      |dailyData| < 2 || CalculateTrend(dailyData[|dailyData| - 1].average - dailyData[|dailyData| - 2].average) == Stable
    ensures |dailyData| >= 1 ==> m.daysTrending <= |dailyData| - 1
  {
    if |dailyData| < 2 {
      return Momentum(Stable, Slow, 0);
    }

    var changes := ChangesOf(dailyData);
    var lastDirection, daysTrending := ScanStreak(changes);

    var recentChanges := RecentChanges(changes);
    var avgChange := Sum(recentChanges) / |recentChanges| as real;
    var direction := CalculateTrend(avgChange);
    var velocity := VelocityOf(avgChange);

    StreakZeroIff(changes);
    StreakBound(changes);
    m := Momentum(if lastDirection.Some? then lastDirection.value else direction, velocity, daysTrending);
  }

  /** The loop of calculateMomentum that collects the day-over-day changes. */
  method ChangesOf(dailyData: seq<DailyPulse>) returns (changes: seq<real>)
    ensures changes == DayChanges(dailyData)
  {
    changes := [];
    if |dailyData| < 2 {
      return;
    }
    for i := 1 to |dailyData|
      invariant |changes| == i - 1
      invariant forall k :: 0 <= k < i - 1 ==> changes[k] == dailyData[k + 1].average - dailyData[k].average
    {
      changes := changes + [dailyData[i].average - dailyData[i - 1].average];
    }
    assert forall k :: 0 <= k < |changes| ==> changes[k] == DayChanges(dailyData)[k];
  }

  /**
   * The backward scan of calculateMomentum: the newest change fixes the
   * direction, and the count is the streak of that direction.
   */
  method ScanStreak(changes: seq<real>) returns (lastDirection: Option<TrendDirection>, daysTrending: nat)
    requires changes != []
    ensures lastDirection == Some(CalculateTrend(changes[|changes| - 1]))
    ensures daysTrending == Streak(changes)
  {
    daysTrending := 0;
    lastDirection := None;
    var i := |changes| - 1;
    while i >= 0
      invariant -1 <= i <= |changes| - 1
      invariant i == |changes| - 1 ==> lastDirection == None && daysTrending == 0
      invariant i < |changes| - 1 ==> lastDirection == Some(CalculateTrend(changes[|changes| - 1]))
      invariant i < |changes| - 1 ==> daysTrending + Run(changes[..i + 1], lastDirection.value) == Streak(changes)
    {
      var direction := CalculateTrend(changes[i]);
      if lastDirection.Some? {
        RunStep(changes, i, lastDirection.value);
      }
      if lastDirection.None? {
        lastDirection := Some(direction);
        if direction != Stable {
          daysTrending := 1;
        }
      } else if direction == lastDirection.value && direction != Stable {
        daysTrending := daysTrending + 1;
      } else if direction != Stable {
        break;
      }
      i := i - 1;
    }
  }

  // ---------------------------------------------------------------------------
  // Ladders
  // ---------------------------------------------------------------------------

  /** Aggregates are shown from three entries on. */
  function HasMinimumData(entryCount: int): (enough: bool)
    ensures enough <==> entryCount >= 3
  {
    entryCount >= 3
  }

  /** Today's state from the participation percentage. */
  function CalculateDayState(participationRate: real): (s: DayState)
    ensures s == DayComplete <==> participationRate >= 60.0
    ensures s == SignalEmerging <==> 30.0 <= participationRate < 60.0
    ensures s == DayForming <==> participationRate < 30.0
  {
    if participationRate >= 60.0 then DayComplete
    else if participationRate >= 30.0 then SignalEmerging
    else DayForming
  }

  /** This week's state; complete only at the end of the week. */
  function CalculateWeekState(daysWithData: int, isEndOfWeek: bool): (s: WeekState)
    ensures s == WeekComplete <==> isEndOfWeek && daysWithData >= 4
    ensures s == SignalForming <==> daysWithData >= 3 && !(isEndOfWeek && daysWithData >= 4)
    ensures s == WeekBuilding <==> daysWithData < 3
  {
    if isEndOfWeek && daysWithData >= 4 then WeekComplete
    else if daysWithData >= 3 then SignalForming
    else WeekBuilding
  }

  /**
   * Maturity of the history: reliable needs both 30 days and 70%
   * consistency; 30 days or more with less consistency is pattern forming.
   */
  function CalculateDataMaturity(totalDaysWithData: int, consistencyRate: real): (level: DataMaturity)
    ensures level == ReliableSignal <==> totalDaysWithData >= 30 && consistencyRate >= 70.0
    ensures level == PatternForming <==> totalDaysWithData >= 14 && !(totalDaysWithData >= 30 && consistencyRate >= 70.0)
    ensures level == EstablishingBaseline <==> 7 <= totalDaysWithData < 14
    ensures level == Calibrating <==> totalDaysWithData < 7
  {
    if totalDaysWithData >= 30 && consistencyRate >= 70.0 then ReliableSignal
    else if totalDaysWithData >= 14 then PatternForming
    else if totalDaysWithData >= 7 then EstablishingBaseline
    else Calibrating
  }

  /** Every ladder only climbs as its inputs grow. */
  lemma LaddersMonotone(n1: int, n2: int, r1: real, r2: real, end1: bool, end2: bool)
    requires n1 <= n2 && r1 <= r2 && (end1 ==> end2)
    ensures HasMinimumData(n1) ==> HasMinimumData(n2)
    ensures DayStateRank(CalculateDayState(r1)) <= DayStateRank(CalculateDayState(r2))
    ensures WeekStateRank(CalculateWeekState(n1, end1)) <= WeekStateRank(CalculateWeekState(n2, end2))
    ensures MaturityRank(CalculateDataMaturity(n1, r1)) <= MaturityRank(CalculateDataMaturity(n2, r2))
  {
  }
}
