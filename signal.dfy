/**
 * The sampled series of one run and the two operations applied to whole
 * series: rate reduction (`downsample_data`) and dropout marking (the
 * `trial_pupil_size[trial_pupil_size == 0] = np.nan` step).
 */
module Signal {
  import opened Wrappers

  /** One cell of a recorded or tabulated numeric series: a number, or NaN. */
  datatype Sample = Missing | Value(v: real)

  /** Sampling rate of the recordings and the rate of the flat files. */
  const OriginalRate: nat := 2000
  const TargetRate: nat := 250

  /**
   * The anti-aliasing decimation routine (an order-8 filter followed by
   * sample dropping). It is foreign numerical code: the model takes it as
   * a parameter and claims nothing about the values or the length it yields.
   * None stands for the routine raising (a series too short to filter, say).
   */
  type Decimator = (seq<Sample>, nat) -> Option<seq<Sample>>

  /** `int(original_fs / target_fs)`: the truncated quotient of the two rates. */
  function DecimationFactor(originalRate: nat, targetRate: nat): (q: nat)
    requires targetRate > 0
    ensures q * targetRate <= originalRate < q * targetRate + targetRate
  {
    originalRate / targetRate
  }

  /** `downsample_data`: unchanged at equal rates, else decimated by the factor. */
  function Downsample(data: seq<Sample>, originalRate: nat, targetRate: nat, decimate: Decimator): Option<seq<Sample>>
    requires targetRate > 0
  {
    if originalRate == targetRate then Some(data)
    else decimate(data, DecimationFactor(originalRate, targetRate))
  }

  /** At equal rates the series is returned as it is, whatever the decimator. */
  lemma DownsampleEqualRates(data: seq<Sample>, rate: nat, decimate: Decimator)
    requires rate > 0
    ensures Downsample(data, rate, rate, decimate) == Some(data)
  {
  }

  /** The scripts' own rates: 2000 Hz recordings are decimated by 8. */
  lemma RecordingRatesFactor()
    ensures DecimationFactor(OriginalRate, TargetRate) == 8
    ensures forall data: seq<Sample>, d: Decimator ::
      Downsample(data, OriginalRate, TargetRate, d) == d(data, 8)
  {
  }

  /** A zero reading is a sensor dropout and becomes NaN; anything else stays. */
  function DropZero(x: Sample): Sample
  {
    if x == Value(0.0) then Missing else x
  }

  /** Dropout marking applied to every cell of a series. */
  function DropZeros(s: seq<Sample>): (r: seq<Sample>)
    ensures |r| == |s|
    ensures forall i :: 0 <= i < |s| ==> (r[i] == Missing <==> s[i] == Missing || s[i] == Value(0.0))
    ensures forall i :: 0 <= i < |s| ==> r[i] != Missing ==> r[i] == s[i]
  {
    seq(|s|, i requires 0 <= i < |s| => DropZero(s[i]))
  }

  /** No literal zero survives dropout marking. */
  lemma NoZeroAfterDropout(s: seq<Sample>)
    ensures Value(0.0) !in DropZeros(s)
  {
  }

  /** Marking twice is marking once. */
  lemma DropZerosIdempotent(s: seq<Sample>)
    ensures DropZeros(DropZeros(s)) == DropZeros(s)
  {
  }

  /** Marking works cell by cell, so it commutes with slicing and concatenation. */
  lemma DropZerosAppend(a: seq<Sample>, b: seq<Sample>)
    ensures DropZeros(a + b) == DropZeros(a) + DropZeros(b)
  {
  }

  lemma DropZerosSlice(s: seq<Sample>, lo: nat, hi: nat)
    requires lo <= hi <= |s|
    ensures DropZeros(s[lo..hi]) == DropZeros(s)[lo..hi]
  {
  }

  /**
   * The in-place masked assignment on a trial's private copy: exactly the
   * zero cells become NaN.
   */
  method MarkDropouts(a: array<Sample>)
    modifies a
    ensures a[..] == DropZeros(old(a[..]))
  {
    var i := 0;
    while i < a.Length
      invariant 0 <= i <= a.Length
      invariant a[..i] == DropZeros(old(a[..]))[..i]
      invariant a[i..] == old(a[..])[i..]
    {
      if a[i] == Value(0.0) {
        a[i] := Missing;
      }
      i := i + 1;
    }
  }
}
