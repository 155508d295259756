/** The strong-blow gate and the leaky counter that debounces it
    (App.tsx:55-57, App.tsx:83-111). */
module Classifier {
  import opened Features

  const LowFreqThreshold: nat := 180
  const LowFreqPeakThreshold: nat := 200
  const AmplitudeThreshold: nat := 60
  const RequiredSustainedFrames: nat := 3

  /** A frame is a strong blow when all three strict gates pass. The average
      gate is stated in integers; an empty low-frequency range never passes. */
  predicate IsStrongBlow(f: Frame)
  {
    && f.lowFreqRange > 0
    && f.lowFreqSum > LowFreqThreshold * f.lowFreqRange
    && f.lowFreqMax > LowFreqPeakThreshold
    && f.timeMax > AmplitudeThreshold
  }

  /** The low-frequency average as the component computes it: a quotient. */
  ghost function LowFreqAverage(f: Frame): real
    requires f.lowFreqRange > 0
  {
    f.lowFreqSum as real / f.lowFreqRange as real
  }

  /** The gate as written against the quotient. A zero-length range gives
      0 / 0, which is not a number and compares false with every threshold. */
  ghost predicate SourceStrongBlow(f: Frame)
  {
    && (f.lowFreqRange > 0 && LowFreqAverage(f) > LowFreqThreshold as real)
    && f.lowFreqMax > LowFreqPeakThreshold
    && f.timeMax > AmplitudeThreshold
  }

  /** Comparing the sum with threshold * range decides exactly what comparing
      the average with the threshold decides. */
  lemma AverageGateIsExact(f: Frame)
    requires f.lowFreqRange > 0
    ensures LowFreqAverage(f) > LowFreqThreshold as real <==> f.lowFreqSum > LowFreqThreshold * f.lowFreqRange
  {
  }

  /** The integer gate and the gate written against the average agree on every frame. */
  lemma IsStrongBlowMatchesSource(f: Frame)
    ensures IsStrongBlow(f) <==> SourceStrongBlow(f)
  {
  }

  /** Every gate is strict: a frame exactly at, or below, any one threshold is not a blow. */
  lemma GatesAreStrict(f: Frame)
    ensures f.lowFreqRange > 0 && LowFreqAverage(f) <= LowFreqThreshold as real ==> !IsStrongBlow(f)
    ensures f.lowFreqMax <= LowFreqPeakThreshold ==> !IsStrongBlow(f)
    ensures f.timeMax <= AmplitudeThreshold ==> !IsStrongBlow(f)
    ensures f.lowFreqRange == 0 ==> !IsStrongBlow(f)
  {
  }

  /** Buffers whose low-frequency bins are all zero never make a strong blow,
      whatever the higher bins and the time-domain buffer hold. */
  lemma SilentSpectrumIsNotBlow(frequencyData: seq<byte>, timeData: seq<byte>)
    requires forall i :: 0 <= i < LowFreqRange(|frequencyData|) ==> frequencyData[i] == 0
    ensures FeaturesOf(frequencyData, timeData).lowFreqSum == 0
    ensures FeaturesOf(frequencyData, timeData).lowFreqMax == 0
    ensures !IsStrongBlow(FeaturesOf(frequencyData, timeData))
  {
  }

  /** The leaky counter: a blow adds one, anything else takes one away but not below zero. */
  function Leak(count: nat, blow: bool): nat
  {
    if blow then count + 1 else if count > 0 then count - 1 else 0
  }

  /** A tick confirms when it is a blow that brings the counter to the required number. */
  predicate Confirms(count: nat, blow: bool)
  {
    blow && Leak(count, blow) >= RequiredSustainedFrames
  }

  /** The result of feeding a session a run of verdicts. */
  datatype Verdict = Armed(count: nat) | Confirmed(frame: nat)

  /** Tick by tick, as the detection loop does: the loop stops at the first
      confirming tick, whose index is reported. */
  function Debounce(count: nat, blows: seq<bool>): Verdict
    decreases |blows|
  {
    if blows == [] then Armed(count)
    else if Confirms(count, blows[0]) then Confirmed(0)
    else
      match Debounce(Leak(count, blows[0]), blows[1..])
      case Armed(c) => Armed(c)
      case Confirmed(j) => Confirmed(j + 1)
  }

  /** The counter with no stopping rule: the plain fold of Leak. */
  function Leaky(count: nat, blows: seq<bool>): nat
    decreases |blows|
  {
    if blows == [] then count else Leaky(Leak(count, blows[0]), blows[1..])
  }

  /** The number of blow verdicts in a run. */
  function CountBlows(blows: seq<bool>): nat
  {
    if blows == [] then 0 else (if blows[0] then 1 else 0) + CountBlows(blows[1..])
  }

  /** Confirmation happens exactly when some prefix of the run brings the
      unstopped counter to the required number: the loop stays armed, with
      the plain fold's count, iff no prefix reaches it; it confirms on the
      first frame whose prefix does. */
  lemma {:induction false} DebounceMatchesLeaky(count: nat, blows: seq<bool>)
    requires count < RequiredSustainedFrames
    ensures Debounce(count, blows).Armed? <==>
              forall p :: 0 <= p <= |blows| ==> Leaky(count, blows[..p]) < RequiredSustainedFrames
    ensures Debounce(count, blows).Armed? ==> Debounce(count, blows).count == Leaky(count, blows)
    ensures Debounce(count, blows).Confirmed? ==>
              var j := Debounce(count, blows).frame;
              && j < |blows|
              && Leaky(count, blows[..j + 1]) == RequiredSustainedFrames
              && forall p :: 0 <= p <= j ==> Leaky(count, blows[..p]) < RequiredSustainedFrames
    decreases |blows|
  {
    if blows == [] {
      assert blows[..0] == [];
    } else {
      var c' := Leak(count, blows[0]);
      var rest := blows[1..];
      assert blows[..0] == [];
      forall p | 1 <= p <= |blows|
        ensures Leaky(count, blows[..p]) == Leaky(c', rest[..p - 1])
      {
        assert blows[..p][1..] == rest[..p - 1];
      }
      if Confirms(count, blows[0]) {
        assert Leaky(count, blows[..1]) == Leaky(c', rest[..0]);
        assert rest[..0] == [];
      } else {
        DebounceMatchesLeaky(c', rest);
        if Debounce(c', rest).Armed? {
          assert rest[..|rest|] == rest;
          forall p | 0 <= p <= |blows|
            ensures Leaky(count, blows[..p]) < RequiredSustainedFrames
          {
            if p > 0 {
              assert Leaky(count, blows[..p]) == Leaky(c', rest[..p - 1]);
            }
          }
        } else {
          var j := Debounce(c', rest).frame;
          assert Leaky(count, blows[..j + 2]) == Leaky(c', rest[..j + 1]);
          forall p | 0 <= p <= j + 1
            ensures Leaky(count, blows[..p]) < RequiredSustainedFrames
          {
            if p > 0 {
              assert Leaky(count, blows[..p]) == Leaky(c', rest[..p - 1]);
            }
          }
        }
      }
    }
  }

  /** A run that confirms holds at least as many blows as the counter was
      short of the required number. */
  lemma {:induction false} ConfirmedRunHasBlows(count: nat, blows: seq<bool>)
    ensures Debounce(count, blows).Confirmed? ==> count + CountBlows(blows) >= RequiredSustainedFrames
    decreases |blows|
  {
    if blows != [] && !Confirms(count, blows[0]) {
      ConfirmedRunHasBlows(Leak(count, blows[0]), blows[1..]);
    }
  }

  /** The loop reads nothing after the confirming frame: the run cut just
      after it confirms on the same frame. */
  lemma {:induction false} DebounceStopsAtConfirmation(count: nat, blows: seq<bool>)
    requires Debounce(count, blows).Confirmed?
    ensures Debounce(count, blows).frame < |blows|
    ensures Debounce(count, blows[..Debounce(count, blows).frame + 1]) == Debounce(count, blows)
    decreases |blows|
  {
    var j := Debounce(count, blows).frame;
    if !Confirms(count, blows[0]) {
      DebounceStopsAtConfirmation(Leak(count, blows[0]), blows[1..]);
      assert blows[..j + 1][1..] == blows[1..][..j];
    }
  }

  /** Debouncing suppresses transients: the frames up to and including the
      confirming one hold at least as many blows as the counter was short of
      the required number. */
  lemma ConfirmationNeedsSustainedBlows(count: nat, blows: seq<bool>)
    ensures Debounce(count, blows).Confirmed? ==>
              var j := Debounce(count, blows).frame;
              j < |blows| && count + CountBlows(blows[..j + 1]) >= RequiredSustainedFrames
  {
    if Debounce(count, blows).Confirmed? {
      var j := Debounce(count, blows).frame;
      DebounceStopsAtConfirmation(count, blows);
      ConfirmedRunHasBlows(count, blows[..j + 1]);
    }
  }

  /** A run of n copies of one verdict. */
  function Repeat(blow: bool, n: nat): (r: seq<bool>)
    ensures |r| == n && forall i :: 0 <= i < n ==> r[i] == blow
  {
    if n == 0 then [] else [blow] + Repeat(blow, n - 1)
  }

  /** Quiet frames drain the counter one per frame down to zero and never confirm. */
  lemma {:induction false} QuietFramesDrain(count: nat, quiet: nat)
    ensures Debounce(count, Repeat(false, quiet)) == Armed(if count >= quiet then count - quiet else 0)
  {
    if quiet > 0 {
      assert Repeat(false, quiet)[1..] == Repeat(false, quiet - 1);
      QuietFramesDrain(Leak(count, false), quiet - 1);
    }
  }

  /** A verdict reached after n further frames had already been fed. */
  function Later(v: Verdict, n: nat): Verdict
  {
    match v
    case Armed(c) => Armed(c)
    case Confirmed(j) => Confirmed(j + n)
  }

  /** A frame that does not confirm hands the rest of the run to the moved counter. */
  lemma DebounceUnfold(count: nat, blows: seq<bool>)
    requires blows != [] && !Confirms(count, blows[0])
    ensures Debounce(count, blows) == Later(Debounce(Leak(count, blows[0]), blows[1..]), 1)
  {
  }

  /** Blow frames on a counter still below the required number either
      leave it armed with count + blows, or confirm on the frame that
      reaches the required number. */
  lemma {:induction false} BlowFramesClimb(count: nat, blows: nat, rest: seq<bool>)
    requires count < RequiredSustainedFrames
    ensures Debounce(count, Repeat(true, blows) + rest) ==
              if count + blows < RequiredSustainedFrames then Later(Debounce(count + blows, rest), blows)
              else Confirmed(RequiredSustainedFrames - 1 - count)
    decreases blows
  {
    var run := Repeat(true, blows) + rest;
    if blows == 0 {
      assert run == rest;
      match Debounce(count, rest)
      case Armed(c) =>
      case Confirmed(j) =>
    } else {
      assert run[0] && run[1..] == Repeat(true, blows - 1) + rest;
      if count + 1 < RequiredSustainedFrames {
        DebounceUnfold(count, run);
        BlowFramesClimb(count + 1, blows - 1, rest);
        if count + blows < RequiredSustainedFrames {
          match Debounce(count + blows, rest)
          case Armed(c) =>
          case Confirmed(j) =>
        }
      }
    }
  }

  /** Starting from zero, k blow frames followed by m quiet frames leave the
      counter at max(0, k - m) when k is below the required number, and
      otherwise confirm on the third frame. */
  lemma BlowsThenQuiet(k: nat, m: nat)
    ensures Debounce(0, Repeat(true, k) + Repeat(false, m)) ==
              if k < RequiredSustainedFrames then Armed(if k >= m then k - m else 0)
              else Confirmed(RequiredSustainedFrames - 1)
  {
    BlowFramesClimb(0, k, Repeat(false, m));
    if k < RequiredSustainedFrames {
      QuietFramesDrain(k, m);
    }
  }

  /** Blow, quiet, blow, quiet, ... starting with a blow. */
  function Alternating(n: nat): (r: seq<bool>)
    ensures |r| == n && forall i :: 0 <= i < n ==> r[i] == (i % 2 == 0)
  {
    if n == 0 then []
    else if n == 1 then [true]
    else [true, false] + Alternating(n - 2)
  }

  /** Alternating frames from a fresh counter leave it at 1 after an odd
      number of frames and 0 after an even number, and never confirm. */
  lemma {:induction false} AlternatingNeverConfirms(n: nat)
    ensures Debounce(0, Alternating(n)) == Armed(n % 2)
  {
    if n >= 2 {
      var r := Alternating(n);
      assert r[0] == true && r[1] == false;
      assert r[1..][1..] == Alternating(n - 2);
      AlternatingNeverConfirms(n - 2);
    }
  }
}
