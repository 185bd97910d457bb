/**
 * The legacy alpha/beta direction classifier (signal_processing/eeg_processor.py).
 *
 * The band-pass filters, the RMS amplitudes and `np.std` are not modelled:
 * the amplitudes and the signal-quality figure arrive as inputs, and the
 * standard deviation is an arbitrary function passed in. What is modelled is
 * the arithmetic after them: the band ratios, the floored dynamic threshold,
 * the fixed-order decision tree, the clamped speed and the gating and
 * history updates of `process_eeg_data`.
 */
module EegProcessor {
  import opened BoundedDeque
  import opened BleDecoder
  import opened Lists

  const DirectionsCapacity: nat := 10
  const BetaDiffCapacity: nat := 50

  /** Below this many history entries the threshold is the fixed 0.1. */
  const HistoryWarmUp: nat := 10
  const WarmUpThreshold: real := 0.1
  const ThresholdFloor: real := 0.02

  const MinAf4Samples: nat := 100
  const MinSignalQuality: real := 0.5
  const MinAf4Beta: real := 0.3

  const NeutralSpeed: real := 0.05
  const MaxSpeed: real := 0.5

  datatype Direction = Neutral | Right | Left | Up | Down
  {
    /** The string the source uses for the direction. */
    function Label(): string
    {
      match this
      case Neutral => "none"
      case Right => "right"
      case Left => "left"
      case Up => "up"
      case Down => "down"
    }

    /** The same movement seen with the two hemispheres exchanged. */
    function Mirror(): Direction
    {
      match this
      case Right => Left
      case Left => Right
      case other => other
    }
  }

  /** The four numbers of a channel's feature dictionary that the classifier reads. */
  datatype BandFeatures = BandFeatures(alpha: real, beta: real, alphaRatio: real, betaRatio: real)

  // ---------------------------------------------------------------------
  // Features
  // ---------------------------------------------------------------------

  /**
   * The ratio step of `extract_features`: with fewer than two samples
   * everything is zero; otherwise each band's share of the total amplitude,
   * or zero when the total is zero.
   */
  function ExtractFeatures(sampleCount: nat, alphaAmplitude: real, betaAmplitude: real): (f: BandFeatures)
    ensures sampleCount < 2 ==> f == BandFeatures(0.0, 0.0, 0.0, 0.0)
    ensures sampleCount >= 2 ==> f.alpha == alphaAmplitude && f.beta == betaAmplitude
    ensures alphaAmplitude + betaAmplitude <= 0.0 ==> f.alphaRatio == 0.0 && f.betaRatio == 0.0
    ensures sampleCount >= 2 && alphaAmplitude + betaAmplitude > 0.0 ==>
      f.alphaRatio * (alphaAmplitude + betaAmplitude) == alphaAmplitude &&
      f.betaRatio * (alphaAmplitude + betaAmplitude) == betaAmplitude
  {
    if sampleCount < 2 then BandFeatures(0.0, 0.0, 0.0, 0.0)
    else
      var total := alphaAmplitude + betaAmplitude;
      var alphaRatio := if total > 0.0 then alphaAmplitude / total else 0.0;
      var betaRatio := if total > 0.0 then betaAmplitude / total else 0.0;
      BandFeatures(alphaAmplitude, betaAmplitude, alphaRatio, betaRatio)
  }

  /** RMS amplitudes are never negative, and then the two ratios are shares summing to one. */
  lemma RatiosAreShares(sampleCount: nat, alphaAmplitude: real, betaAmplitude: real)
    requires sampleCount >= 2 && alphaAmplitude >= 0.0 && betaAmplitude >= 0.0
    requires alphaAmplitude + betaAmplitude > 0.0
    ensures var f := ExtractFeatures(sampleCount, alphaAmplitude, betaAmplitude);
      0.0 <= f.alphaRatio <= 1.0 && 0.0 <= f.betaRatio <= 1.0 && f.alphaRatio + f.betaRatio == 1.0
  {
    var total := alphaAmplitude + betaAmplitude;
    var f := ExtractFeatures(sampleCount, alphaAmplitude, betaAmplitude);
    assert f.alphaRatio * total == alphaAmplitude && f.betaRatio * total == betaAmplitude;
    assert (f.alphaRatio + f.betaRatio) * total == f.alphaRatio * total + f.betaRatio * total;
    assert (f.alphaRatio + f.betaRatio - 1.0) * total == 0.0;
    assert f.alphaRatio == alphaAmplitude / total && f.betaRatio == betaAmplitude / total;
  }

  // ---------------------------------------------------------------------
  // The decision tree
  // ---------------------------------------------------------------------

  /**
   * The threshold for the beta asymmetry: the standard deviation of the
   * history once it holds more than 10 entries, 0.1 before; never below 0.02.
   */
  function DynamicThreshold(history: seq<real>, std: seq<real> -> real): (t: real)
    ensures t >= ThresholdFloor
    ensures |history| <= HistoryWarmUp ==> t == WarmUpThreshold
    ensures |history| > HistoryWarmUp ==> t == if std(history) > ThresholdFloor then std(history) else ThresholdFloor
  {
    var deviation := if |history| > HistoryWarmUp then std(history) else WarmUpThreshold;
    if ThresholdFloor >= deviation then ThresholdFloor else deviation
  }

  /** Rule 1: both alpha ratios below 0.1 and the AF4 beta ratio below 0.3. */
  predicate Quiet(af3: BandFeatures, af4: BandFeatures)
  {
    af3.alphaRatio < 0.1 && af4.alphaRatio < 0.1 && af4.betaRatio < 0.3
  }

  /** The five rules of `classify_direction`, tried in order; the first that holds wins. */
  function Decide(af3: BandFeatures, af4: BandFeatures, threshold: real): (d: Direction)
    ensures d == Neutral <==> Quiet(af3, af4)
  {
    var betaDiff := af4.betaRatio - af3.betaRatio;
    var alphaDiff := af4.alphaRatio - af3.alphaRatio;
    if Quiet(af3, af4) then Neutral
    else if betaDiff > threshold && af4.betaRatio > 0.05 then Right
    else if betaDiff < -threshold && af3.betaRatio > 0.05 then Left
    else if af3.alphaRatio + af4.alphaRatio > 1.0 && (if alphaDiff < 0.0 then -alphaDiff else alphaDiff) < 0.2 then Up
    else Down
  }

  /** Each label is chosen exactly when its rule holds and no earlier rule does. */
  lemma DecideRules(af3: BandFeatures, af4: BandFeatures, threshold: real)
    requires threshold >= ThresholdFloor
    ensures var d := Decide(af3, af4, threshold);
      var betaDiff := af4.betaRatio - af3.betaRatio;
      var alphaDiff := af4.alphaRatio - af3.alphaRatio;
      var earlier := Quiet(af3, af4) || (betaDiff > threshold && af4.betaRatio > 0.05) ||
                     (betaDiff < -threshold && af3.betaRatio > 0.05);
      var up := af3.alphaRatio + af4.alphaRatio > 1.0 && -0.2 < alphaDiff < 0.2;
      && (d == Neutral <==> Quiet(af3, af4))
      && (d == Right <==> !Quiet(af3, af4) && betaDiff > threshold && af4.betaRatio > 0.05)
      && (d == Left <==> !Quiet(af3, af4) && betaDiff < -threshold && af3.betaRatio > 0.05)
      && (d == Up <==> !earlier && up)
      && (d == Down <==> !earlier && !up)
  {
  }

  function MirrorFeatures(af3: BandFeatures, af4: BandFeatures): (BandFeatures, BandFeatures)
  {
    (af4, af3)
  }

  /**
   * Exchanging the channels exchanges left and right, and leaves up, down
   * and none alone, as long as the AF4-only quiet rule fires in neither order.
   */
  lemma {:induction false} DecideMirror(af3: BandFeatures, af4: BandFeatures, threshold: real)
    requires threshold >= 0.0
    requires !Quiet(af3, af4) && !Quiet(af4, af3)
    ensures Decide(af4, af3, threshold) == Decide(af3, af4, threshold).Mirror()
  {
    var betaDiff := af4.betaRatio - af3.betaRatio;
    if betaDiff > threshold && af4.betaRatio > 0.05 {
      assert Decide(af3, af4, threshold) == Right;
      assert af3.betaRatio - af4.betaRatio < -threshold;
      assert !(af3.betaRatio - af4.betaRatio > threshold);
    }
  }

  /** The quiet rule reads the AF4 beta ratio only, so it is not symmetric. */
  lemma QuietIsAsymmetric()
    ensures var quiet := BandFeatures(0.0, 0.0, 0.05, 0.2);
      var busy := BandFeatures(0.0, 0.0, 0.05, 0.9);
      Quiet(busy, quiet) && !Quiet(quiet, busy)
  {
  }

  // ---------------------------------------------------------------------
  // Speed and mental state
  // ---------------------------------------------------------------------

  /** Which PPG values lie below the ceiling, position by position. */
  function BelowCeilingFlags(ppg: seq<int>): (flags: seq<bool>)
    ensures |flags| == |ppg|
    ensures forall k :: 0 <= k < |ppg| ==> flags[k] == (ppg[k] < PpgCeiling)
  {
    seq(|ppg|, k requires 0 <= k < |ppg| => ppg[k] < PpgCeiling)
  }

  /**
   * `[x for x in ppg if x < 1000000]`: every value below the ceiling, each
   * occurrence kept, in the original order.
   */
  function BelowCeiling(ppg: seq<int>): (r: seq<int>)
    ensures r == Kept(ppg, BelowCeilingFlags(ppg))
    ensures forall x :: x in r <==> x in ppg && x < PpgCeiling
  {
    if |ppg| == 0 then []
    else
      var n := |ppg| - 1;
      assert BelowCeilingFlags(ppg)[..n] == BelowCeilingFlags(ppg[..n]);
      assert forall x :: x in ppg <==> x in ppg[..n] || x == ppg[n];
      if ppg[n] < PpgCeiling then BelowCeiling(ppg[..n]) + [ppg[n]]
      else BelowCeiling(ppg[..n])
  }

  /**
   * `calculate_speed`: 0.05 when no PPG value is below the ceiling, otherwise
   * `1 - 0.2 * std / 10000` clamped into `[0.05, 0.5]`.
   */
  function CalculateSpeed(ppg: seq<int>, std: seq<int> -> real): (speed: real)
    ensures NeutralSpeed <= speed <= MaxSpeed
    ensures (forall x :: x in ppg ==> x >= PpgCeiling) ==> speed == NeutralSpeed
  {
    var kept := BelowCeiling(ppg);
    if |kept| == 0 then NeutralSpeed
    else
      assert kept[0] in kept;
      var stressLevel := std(kept) / 10000.0;
      var raw := 1.0 - stressLevel * 0.2;
      var floored := if raw >= NeutralSpeed then raw else NeutralSpeed;
      if floored <= MaxSpeed then floored else MaxSpeed
  }

  /** The speed depends on the PPG buffer only through the values below the ceiling. */
  lemma CalculateSpeedSeesOnlyBelowCeiling(p: seq<int>, q: seq<int>, std: seq<int> -> real)
    requires BelowCeiling(p) == BelowCeiling(q)
    ensures CalculateSpeed(p, std) == CalculateSpeed(q, std)
  {
  }

  /** A PPG reading at or above the ceiling, appended to the buffer, leaves the speed as it was. */
  lemma CalculateSpeedIgnoresLargeReading(ppg: seq<int>, x: int, std: seq<int> -> real)
    requires x >= PpgCeiling
    ensures CalculateSpeed(ppg + [x], std) == CalculateSpeed(ppg, std)
  {
    assert (ppg + [x])[..|ppg|] == ppg;
    CalculateSpeedSeesOnlyBelowCeiling(ppg + [x], ppg, std);
  }

  /** The stress label of `process_eeg_data`; an empty PPG buffer counts as stressed. */
  function MentalState(ppg: seq<int>, std: seq<int> -> real): (state: string)
    ensures state == "Stressed" || state == "Calm"
    ensures ppg == [] ==> state == "Stressed"
  {
    var stressLevel := if |ppg| > 0 then std(ppg) / 10000.0 else 0.5;
    if stressLevel > 0.1 then "Stressed" else "Calm"
  }

  // ---------------------------------------------------------------------
  // The direction history
  // ---------------------------------------------------------------------

  /**
   * The entry `process_eeg_data` appends to `directions`: the new direction
   * only when the history already holds more than two entries whose last two
   * agree, otherwise "none".
   */
  function GatedEntry(directions: seq<Direction>, direction: Direction): (e: Direction)
    ensures e == direction || e == Neutral
    ensures |directions| <= 2 ==> e == Neutral
  {
    if |directions| > 2 && directions[|directions| - 1] == directions[|directions| - 2]
    then direction else Neutral
  }

  /** From an empty history the first three entries are all "none", whatever was classified. */
  lemma {:induction false} HistoryWarmsUp(d1: Direction, d2: Direction, d3: Direction, d4: Direction)
    ensures var h1 := Push([], DirectionsCapacity, GatedEntry([], d1));
      var h2 := Push(h1, DirectionsCapacity, GatedEntry(h1, d2));
      var h3 := Push(h2, DirectionsCapacity, GatedEntry(h2, d3));
      var h4 := Push(h3, DirectionsCapacity, GatedEntry(h3, d4));
      h3 == [Neutral, Neutral, Neutral] && h4 == [Neutral, Neutral, Neutral, d4]
  {
    var h1 := Push([], DirectionsCapacity, GatedEntry([], d1));
    assert h1 == [Neutral];
    var h2 := Push(h1, DirectionsCapacity, GatedEntry(h1, d2));
    assert h2 == [Neutral, Neutral];
    var h3 := Push(h2, DirectionsCapacity, GatedEntry(h2, d3));
    assert h3 == [Neutral, Neutral, Neutral];
  }

  // ---------------------------------------------------------------------
  // The processor object
  // ---------------------------------------------------------------------

  class EEGProcessor {
    var directions: seq<Direction>
    var mentalState: string
    var updateCount: int
    var betaDiffBuffer: seq<real>
    var betaDiffHistory: seq<real>

    ghost predicate Valid()
      reads this
    {
      |directions| <= DirectionsCapacity && |betaDiffBuffer| <= BetaDiffCapacity &&
      |betaDiffHistory| <= BetaDiffCapacity
    }

    constructor ()
      ensures Valid()
      ensures directions == [] && mentalState == "Unknown" && updateCount == 0
      ensures betaDiffBuffer == [] && betaDiffHistory == []
    {
      directions := [];
      mentalState := "Unknown";
      updateCount := 0;
      betaDiffBuffer := [];
      betaDiffHistory := [];
    }

    /**
     * `classify_direction`: records the beta asymmetry in the history and
     * runs the decision tree with the threshold computed from the new history.
     */
    method ClassifyDirection(af3: BandFeatures, af4: BandFeatures, std: seq<real> -> real)
      returns (direction: Direction)
      requires Valid()
      modifies this`betaDiffHistory
      ensures Valid()
      ensures betaDiffHistory == Push(old(betaDiffHistory), BetaDiffCapacity, af4.betaRatio - af3.betaRatio)
      ensures direction == Decide(af3, af4, DynamicThreshold(betaDiffHistory, std))
    {
      var betaDiff := af4.betaRatio - af3.betaRatio;
      betaDiffHistory := Push(betaDiffHistory, BetaDiffCapacity, betaDiff);
      var threshold := DynamicThreshold(betaDiffHistory, std);
      direction := Decide(af3, af4, threshold);
    }

    /**
     * `process_eeg_data` after feature extraction: "none" on a weak signal,
     * a short AF4 buffer or a low smoothed AF4 beta; otherwise the classified
     * direction, with the gated entry appended to `directions`. The mental
     * state is refreshed and the update counter advanced on every call.
     */
    method ProcessEegData(decoder: BLEPacketDecoder, af3: BandFeatures, af4: BandFeatures,
                          signalQuality: real, af4BetaSmooth: real,
                          std: seq<real> -> real, ppgStd: seq<int> -> real)
      returns (direction: Direction)
      requires Valid()
      modifies this
      ensures Valid()
      ensures signalQuality < MinSignalQuality || |decoder.eegAf4| < MinAf4Samples || af4BetaSmooth <= MinAf4Beta ==>
        && direction == Neutral
        && directions == old(directions)
        && betaDiffBuffer == old(betaDiffBuffer)
        && betaDiffHistory == old(betaDiffHistory)
      ensures !(signalQuality < MinSignalQuality || |decoder.eegAf4| < MinAf4Samples) && af4BetaSmooth > MinAf4Beta ==>
        var betaDiff := af4.betaRatio - af3.betaRatio;
        && betaDiffHistory == Push(old(betaDiffHistory), BetaDiffCapacity, betaDiff)
        && direction == Decide(af3, af4, DynamicThreshold(betaDiffHistory, std))
        && betaDiffBuffer == Push(old(betaDiffBuffer), BetaDiffCapacity, betaDiff)
        && directions == Push(old(directions), DirectionsCapacity, GatedEntry(old(directions), direction))
      ensures mentalState == MentalState(decoder.ppg, ppgStd)
      ensures updateCount == old(updateCount) + 1
    {
      if signalQuality < MinSignalQuality || |decoder.eegAf4| < MinAf4Samples {
        direction := Neutral;
      } else if af4BetaSmooth > MinAf4Beta {
        direction := ClassifyDirection(af3, af4, std);
        var betaDiff := af4.betaRatio - af3.betaRatio;
        betaDiffBuffer := Push(betaDiffBuffer, BetaDiffCapacity, betaDiff);
        var n := |directions|;
        if n > 2 && directions[n - 1] == directions[n - 2] {
          directions := Push(directions, DirectionsCapacity, direction);
        } else {
          directions := Push(directions, DirectionsCapacity, Neutral);
        }
      } else {
        direction := Neutral;
      }
      var stressLevel := if |decoder.ppg| > 0 then ppgStd(decoder.ppg) / 10000.0 else 0.5;
      mentalState := if stressLevel > 0.1 then "Stressed" else "Calm";
      updateCount := updateCount + 1;
    }
  }
}
