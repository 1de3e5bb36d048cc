/**
 * The fly easter egg's classifier: a mood signal on the 1-5 scale, or no
 * signal at all, chooses how busy the fly on screen is.
 */
module Fly {
  import opened Optional

  /** How often the fly shows up; `NoFly` is the frequency 'none'. */
  datatype FlyFrequency = NoFly | Rare | Medium | High

  /** How agitated the fly is: none, calm, moderate, erratic. */
  function Activity(f: FlyFrequency): (n: nat)
    ensures n <= 3
    ensures n == 0 <==> f == NoFly
  {
    match f
    case NoFly => 0
    case Rare => 1
    case Medium => 2
    case High => 3
  }

  /** The frequencies from no fly to the most agitated one. */
  lemma ActivityOrder()
    ensures Activity(NoFly) < Activity(Rare) < Activity(Medium) < Activity(High)
  {
  }

  /**
   * signalToFlyFrequency as written: no signal is rare, a signal of at most 2
   * is high, exactly 3 is medium, anything else is rare.
   */
  function SignalToFlyFrequency(signal: Option<real>): (f: FlyFrequency)
    ensures f != NoFly
    ensures f == High <==> signal.Some? && signal.value <= 2.0
    ensures f == Medium <==> signal == Some(3.0)
    ensures f == Rare <==> signal.None? || (signal.value > 2.0 && signal.value != 3.0)
  {
    match signal
    case None => Rare
    case Some(s) =>
      if s <= 2.0 then High
      else if s == 3.0 then Medium
      else Rare
  }

  /** Signals between the whole numbers fall through to rare: 2.5 and 3.5 both give a calm fly. */
  lemma FractionalSignalsAreRare()
    ensures SignalToFlyFrequency(Some(2.5)) == Rare
    ensures SignalToFlyFrequency(Some(3.5)) == Rare
    ensures SignalToFlyFrequency(None) == Rare
  {
  }

  /**
   * The doc comment promises that lower signals mean a more active fly, but
   * the signal 2.5 is lower than 3 and gets a calmer fly than 3 does.
   */
  lemma LowerSignalCanCalmTheFly()
    ensures 2.5 < 3.0
    ensures Activity(SignalToFlyFrequency(Some(2.5))) < Activity(SignalToFlyFrequency(Some(3.0)))
  {
  }

  /**
   * The classifier as its doc comment describes it: at most 2 is high, at most
   * 3 is medium, higher signals (and no signal) are rare.
   */
  function SignalToFlyFrequencyIntended(signal: Option<real>): (f: FlyFrequency)
    ensures f != NoFly
    ensures f == High <==> signal.Some? && signal.value <= 2.0
    ensures f == Medium <==> signal.Some? && 2.0 < signal.value <= 3.0
    ensures f == Rare <==> signal.None? || signal.value > 3.0
  {
    match signal
    case None => Rare
    case Some(s) =>
      if s <= 2.0 then High
      else if s <= 3.0 then Medium
      else Rare
  }

  /** With the correction a lower signal never gives a calmer fly. */
  lemma IntendedLowerSignalIsMoreActive(s: real, t: real)
    requires s <= t
    ensures Activity(SignalToFlyFrequencyIntended(Some(s))) >= Activity(SignalToFlyFrequencyIntended(Some(t)))
  {
  }

  /** On whole-number signals the correction changes nothing. */
  lemma IntendedAgreesOnWholeSignals(n: int)
    ensures SignalToFlyFrequencyIntended(Some(n as real)) == SignalToFlyFrequency(Some(n as real))
  {
  }
}
