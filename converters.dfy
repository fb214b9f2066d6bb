/**
 * The two default methods of the converter interfaces: the encoder's input
 * clamp to [0, 1] (ValueToSpikeTrainConverter) and the quantized decoder's
 * `2v - 1` normalisation clamped to [-1, 1] (QuantizedSpikeTrainToValueConverter).
 */
module ValueToSpikeTrainConverter {

  const LowerBound: real := 0.0
  const UpperBound: real := 1.0
  /** Nominal and minimum spike frequencies (Hz) shared by the encoders. */
  const DefaultFrequency: real := 50.0
  const MinFrequency: real := 5.0

  /** `Math.max(Math.min(UPPER_BOUND, value), LOWER_BOUND)` */
  function ClipInputValue(value: real): (r: real)
    ensures LowerBound <= r <= UpperBound
    ensures LowerBound <= value <= UpperBound ==> r == value
    ensures value < LowerBound ==> r == LowerBound
    ensures value > UpperBound ==> r == UpperBound
  {
    var upper := if UpperBound <= value then UpperBound else value;
    if upper >= LowerBound then upper else LowerBound
  }

  lemma ClipInputValueIdempotent(value: real)
    ensures ClipInputValue(ClipInputValue(value)) == ClipInputValue(value)
  {
  }

  lemma ClipInputValueMonotone(a: real, b: real)
    requires a <= b
    ensures ClipInputValue(a) <= ClipInputValue(b)
  {
  }

  lemma FrequencyRange()
    ensures 0.0 < MinFrequency < DefaultFrequency
  {
  }
}

module QuantizedSpikeTrainToValueConverter {

  const LowerBound: real := -1.0
  const UpperBound: real := 1.0
  const DefaultFrequency: real := 50.0

  /** The firing rate `value` is mapped affinely to `2 * value - 1`, then clamped. */
  function NormalizeValue(value: real): (r: real)
    ensures LowerBound <= r <= UpperBound
    ensures 0.0 <= value <= 1.0 ==> r == 2.0 * value - 1.0
    ensures value <= 0.0 ==> r == LowerBound
    ensures value >= 1.0 ==> r == UpperBound
  {
    var scaled := value * 2.0 - 1.0;
    var upper := if UpperBound <= scaled then UpperBound else scaled;
    if upper >= LowerBound then upper else LowerBound
  }

  lemma NormalizeValueMonotone(a: real, b: real)
    requires a <= b
    ensures NormalizeValue(a) <= NormalizeValue(b)
  {
  }
}
