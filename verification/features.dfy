/** Feature extraction for the blow detector: the analyser's byte buffers and
    the three scalar features each tick reduces them to (App.tsx:51-81). */
module Features {

  /** One unsigned 8-bit sample or frequency bin, as held by a Uint8Array. */
  newtype byte = x: int | 0 <= x < 256

  /** The analyser's configured FFT size; the time-domain buffer has this length. */
  const FftSize: nat := 512
  /** The analyser's frequency bin count (half the FFT size); the frequency buffer has this length. */
  const BinCount: nat := FftSize / 2
  /** The byte value of a zero-amplitude time-domain sample. */
  const Midpoint: int := 128

  /** The buffer after the analyser has copied a snapshot into it: as many
      entries as both have are overwritten, the rest of the buffer is kept and
      any excess of the snapshot is dropped. */
  function Fill(buffer: seq<byte>, snapshot: seq<byte>): (r: seq<byte>)
    ensures |r| == |buffer|
    ensures forall i :: 0 <= i < |r| ==> r[i] == if i < |snapshot| then snapshot[i] else buffer[i]
  {
    if |snapshot| >= |buffer| then snapshot[..|buffer|] else snapshot + buffer[|snapshot|..]
  }

  /** The analyser writing its current snapshot into a buffer the component owns. */
  method CopySnapshot(a: array<byte>, snapshot: seq<byte>)
    modifies a
    ensures a[..] == Fill(old(a[..]), snapshot)
  {
    forall i | 0 <= i < a.Length && i < |snapshot| {
      a[i] := snapshot[i];
    }
  }

  /** The number of low-frequency bins examined: floor(n * 0.3), in integers. */
  function LowFreqRange(n: nat): (r: nat)
    ensures r * 10 <= n * 3 < (r + 1) * 10
    ensures r <= n
  {
    n * 3 / 10
  }

  /** With the configured 256 bins the component examines the first 76. */
  lemma ConfiguredLowFreqRange()
    ensures BinCount == 256 && LowFreqRange(BinCount) == 76
  {
  }

  /** Sum of the bins, accumulated from the first one. */
  function Sum(s: seq<byte>): (t: nat)
    ensures t <= 255 * |s|
    ensures t == 0 <==> forall i :: 0 <= i < |s| ==> s[i] == 0
  {
    if s == [] then 0
    else
      var t' := Sum(s[..|s| - 1]);
      assert forall i :: 0 <= i < |s| - 1 ==> s[..|s| - 1][i] == s[i];
      t' + s[|s| - 1] as int
  }

  /** Largest bin, starting from 0 and replaced by every strictly larger bin. */
  function Max(s: seq<byte>): (m: nat)
    ensures m <= 255
    ensures forall i :: 0 <= i < |s| ==> s[i] as int <= m
    ensures (s == [] && m == 0) || exists i :: 0 <= i < |s| && s[i] as int == m
  {
    if s == [] then 0
    else
      var m' := Max(s[..|s| - 1]);
      assert forall i :: 0 <= i < |s| - 1 ==> s[..|s| - 1][i] == s[i];
      if s[|s| - 1] as int > m' then s[|s| - 1] as int else m'
  }

  /** Absolute deviation of a time-domain sample from the midpoint. */
  function Deviation(b: byte): (d: nat)
    ensures d <= 128
    ensures b as int == Midpoint + d || b as int == Midpoint - d
  {
    if b as int >= Midpoint then b as int - Midpoint else Midpoint - b as int
  }

  /** Largest deviation from the midpoint, starting from 0. */
  function Peak(s: seq<byte>): (p: nat)
    ensures p <= 128
    ensures forall i :: 0 <= i < |s| ==> Deviation(s[i]) <= p
    ensures (s == [] && p == 0) || exists i :: 0 <= i < |s| && Deviation(s[i]) == p
  {
    if s == [] then 0
    else
      var p' := Peak(s[..|s| - 1]);
      assert forall i :: 0 <= i < |s| - 1 ==> s[..|s| - 1][i] == s[i];
      if Deviation(s[|s| - 1]) > p' then Deviation(s[|s| - 1]) else p'
  }

  /** The per-tick features. The average is kept as its numerator and
      denominator so that it can be compared exactly in integers. */
  datatype Frame = Frame(lowFreqSum: nat, lowFreqRange: nat, lowFreqMax: nat, timeMax: nat)

  /** The features of one tick's frequency and time-domain buffers. */
  function FeaturesOf(frequencyData: seq<byte>, timeData: seq<byte>): (f: Frame)
    ensures f.lowFreqRange <= |frequencyData|
    ensures f.lowFreqSum <= 255 * f.lowFreqRange
    ensures f.lowFreqMax <= 255 && f.timeMax <= 128
  {
    var range := LowFreqRange(|frequencyData|);
    Frame(Sum(frequencyData[..range]), range, Max(frequencyData[..range]), Peak(timeData))
  }

  /** The loop over the low-frequency bins: their number, sum and maximum. */
  method LowFrequencyStats(frequencyData: array<byte>) returns (range: nat, sum: nat, max: nat)
    ensures range == LowFreqRange(frequencyData.Length)
    ensures sum == Sum(frequencyData[..range])
    ensures max == Max(frequencyData[..range])
  {
    range := LowFreqRange(frequencyData.Length);
    sum, max := 0, 0;
    var i := 0;
    while i < range
      invariant i <= range
      invariant sum == Sum(frequencyData[..i])
      invariant max == Max(frequencyData[..i])
    {
      assert frequencyData[..i + 1][..i] == frequencyData[..i];
      sum := sum + frequencyData[i] as nat;
      if frequencyData[i] as nat > max {
        max := frequencyData[i] as nat;
      }
      i := i + 1;
    }
  }

  /** The loop over the time-domain samples: the peak deviation from the midpoint. */
  method TimePeak(timeData: array<byte>) returns (timeMax: nat)
    ensures timeMax == Peak(timeData[..])
  {
    timeMax := 0;
    var i := 0;
    while i < timeData.Length
      invariant i <= timeData.Length
      invariant timeMax == Peak(timeData[..i])
    {
      assert timeData[..i + 1][..i] == timeData[..i];
      var amplitude := Deviation(timeData[i]);
      if amplitude > timeMax {
        timeMax := amplitude;
      }
      i := i + 1;
    }
    assert timeData[..i] == timeData[..];
  }

  /** The time-domain buffer of a silent microphone (every sample at the
      midpoint) has peak 0; an all-zero time-domain buffer is a full-scale
      signal, with peak 128. */
  lemma {:induction false} SilenceHasNoPeak(timeData: seq<byte>)
    ensures (forall i :: 0 <= i < |timeData| ==> timeData[i] as int == Midpoint) ==> Peak(timeData) == 0
    ensures |timeData| > 0 && (forall i :: 0 <= i < |timeData| ==> timeData[i] == 0) ==> Peak(timeData) == 128
  {
  }
}
