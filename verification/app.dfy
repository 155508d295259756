/** The App component's microphone handling as an object: the refs and the
    state flags are fields that its event handlers update in place, and the
    two analyser buffers are arrays that each tick refills (App.tsx:11-124). */
module App {
  import opened Features
  import opened Classifier
  import opened SessionModel

  class Microphone {
    /** The isListening and candlesBlownOut state flags. */
    var isListening: bool
    var candlesBlownOut: bool
    /** Whether audioContextRef and analyserRef are set. */
    var hasAudioContext: bool
    var hasAnalyser: bool
    /** Whether a requestAnimationFrame callback is pending. */
    var frameRequested: bool
    /** The current session's sustainedBlowCount. */
    var sustainedBlowCount: nat
    /** The current session's frequency and time-domain buffers. */
    var frequencyData: array<byte>
    var timeData: array<byte>
    /** False once the unmount cleanup has run. */
    var mounted: bool
    /** How many times each audio context created so far has been closed. */
    ghost var contextCloses: seq<nat>
    /** The indices of the contexts a failed start created but never stored. */
    ghost var leakedContexts: set<nat>

    /** The fields as a value of the session model. */
    ghost function State(): Session
      reads this
    {
      Session(isListening, candlesBlownOut, hasAudioContext, hasAnalyser, frameRequested,
              sustainedBlowCount, contextCloses, leakedContexts, mounted)
    }

    /** The session invariant, and the buffers sized as the analyser reports
        once a session has been started. */
    ghost predicate Valid()
      reads this
    {
      && Inv(State())
      && frequencyData != timeData
      && (hasAnalyser ==> frequencyData.Length == BinCount && timeData.Length == FftSize)
    }

    /** What holds while the detection callback runs: the invariant with this
        callback counted as the pending one, and nothing else pending. */
    ghost predicate Ticking()
      reads this
    {
      && Inv(State().(tickScheduled := true))
      && !frameRequested && mounted && isListening
      && frequencyData != timeData
      && frequencyData.Length == BinCount && timeData.Length == FftSize
    }

    /** The component at mount. */
    constructor ()
      ensures Valid() && State() == Initial
    {
      isListening, candlesBlownOut := false, false;
      hasAudioContext, hasAnalyser, frameRequested := false, false, false;
      sustainedBlowCount := 0;
      frequencyData := new byte[0];
      timeData := new byte[0];
      mounted := true;
      contextCloses := [];
      leakedContexts := {};
    }

    /** The detection callback: refill both buffers, extract the features,
        run the gates and the leaky counter, then either end the session or
        ask for the next frame. */
    method DetectBlow(frequencySnapshot: seq<byte>, timeSnapshot: seq<byte>)
      requires Ticking()
      modifies this, frequencyData, timeData
      ensures Valid()
      ensures frequencyData == old(frequencyData) && timeData == old(timeData)
      ensures frequencyData[..] == Fill(old(frequencyData[..]), frequencySnapshot)
      ensures timeData[..] == Fill(old(timeData[..]), timeSnapshot)
      ensures State() == DetectBlowStep(old(State()), IsStrongBlow(FeaturesOf(frequencyData[..], timeData[..])))
    {
      if !hasAnalyser {
        return;
      }
      ghost var before := State();
      CopySnapshot(frequencyData, frequencySnapshot);
      CopySnapshot(timeData, timeSnapshot);
      var isStrongBlow := ClassifyFrame(frequencyData, timeData);

      if isStrongBlow {
        sustainedBlowCount := sustainedBlowCount + 1;
        if sustainedBlowCount >= RequiredSustainedFrames {
          candlesBlownOut := true;
          isListening := false;
          if hasAudioContext {
            contextCloses := contextCloses[|contextCloses| - 1 := contextCloses[|contextCloses| - 1] + 1];
            hasAudioContext := false;
          }
          DetectBlowPreservesInv(before, isStrongBlow);
          return;
        }
      } else {
        sustainedBlowCount := if sustainedBlowCount > 0 then sustainedBlowCount - 1 else 0;
      }
      frameRequested := true;
      DetectBlowPreservesInv(before, isStrongBlow);
    }

    /** The start click. outcome is how the microphone request and the
        analyser graph turned out; the snapshots are what the analyser holds
        when the first tick, run inside the click handler, reads it. */
    method StartMicrophone(outcome: MicOutcome, frequencySnapshot: seq<byte>, timeSnapshot: seq<byte>)
      requires Valid() && mounted
      modifies this
      ensures Valid() && mounted
      ensures State() == StartStep(old(State()), outcome, IsStrongBlow(FeaturesOf(frequencyData[..], timeData[..])))
      ensures old(isListening) || outcome == AccessFailed ==> unchanged(this)
      ensures outcome == GraphFailed ==> frequencyData == old(frequencyData) && timeData == old(timeData)
      ensures !old(isListening) && outcome == Started ==>
                && fresh(frequencyData) && fresh(timeData)
                && frequencyData[..] == Fill(Zeros(BinCount), frequencySnapshot)
                && timeData[..] == Fill(Zeros(FftSize), timeSnapshot)
    {
      if isListening {
        return;
      }
      match outcome
      case AccessFailed =>
        isListening := false;
      case GraphFailed =>
        ghost var before := State();
        contextCloses := contextCloses + [0];
        leakedContexts := leakedContexts + {|contextCloses| - 1};
        isListening := false;
        StartPreservesInv(before, GraphFailed, false);
      case Started =>
        BeginListening(frequencySnapshot, timeSnapshot);
    }

    /** The rest of a start whose analyser graph was built: store the refs,
        set the flags, allocate zeroed buffers and run the first tick. */
    method BeginListening(frequencySnapshot: seq<byte>, timeSnapshot: seq<byte>)
      requires Valid() && mounted && !isListening
      modifies this
      ensures Valid() && mounted
      ensures State() == DetectBlowStep(Launch(old(State())), IsStrongBlow(FeaturesOf(frequencyData[..], timeData[..])))
      ensures fresh(frequencyData) && fresh(timeData)
      ensures frequencyData[..] == Fill(Zeros(BinCount), frequencySnapshot)
      ensures timeData[..] == Fill(Zeros(FftSize), timeSnapshot)
    {
      ghost var before := State();
      StartedIsTicking(before);
      hasAudioContext, hasAnalyser := true, true;
      contextCloses := contextCloses + [0];
      isListening := true;
      if candlesBlownOut {
        candlesBlownOut := false;
      }
      frequencyData := new byte[BinCount](_ => 0);
      timeData := new byte[FftSize](_ => 0);
      assert frequencyData[..] == Zeros(BinCount) && timeData[..] == Zeros(FftSize);
      sustainedBlowCount := 0;
      assert State() == Launch(before);
      DetectBlow(frequencySnapshot, timeSnapshot);
    }

    /** An animation frame: the pending detection callback, if any, runs. */
    method AnimationFrame(frequencySnapshot: seq<byte>, timeSnapshot: seq<byte>)
      requires Valid()
      modifies this, frequencyData, timeData
      ensures Valid()
      ensures frequencyData == old(frequencyData) && timeData == old(timeData)
      ensures State() == FrameStep(old(State()), IsStrongBlow(FeaturesOf(frequencyData[..], timeData[..])))
      ensures !old(frameRequested) ==> unchanged(this, frequencyData, timeData)
      ensures old(frameRequested) ==>
                && frequencyData[..] == Fill(old(frequencyData[..]), frequencySnapshot)
                && timeData[..] == Fill(old(timeData[..]), timeSnapshot)
    {
      if frameRequested {
        frameRequested := false;
        DetectBlow(frequencySnapshot, timeSnapshot);
      }
    }

    /** The unmount cleanup: cancel the pending frame and close the context
        still in the ref, if any. */
    method Unmount()
      requires Valid() && mounted
      modifies this
      ensures Valid() && !mounted && !frameRequested
      ensures State() == UnmountStep(old(State()))
      ensures forall i :: 0 <= i < |contextCloses| ==>
                contextCloses[i] == if i in leakedContexts then 0 else 1
    {
      UnmountReleasesEverything(State());
      frameRequested := false;
      if hasAudioContext {
        contextCloses := contextCloses[|contextCloses| - 1 := contextCloses[|contextCloses| - 1] + 1];
      }
      mounted := false;
    }
  }

  /** Feature extraction and the strong-blow gates over the two buffers. */
  method ClassifyFrame(frequencyData: array<byte>, timeData: array<byte>) returns (isStrongBlow: bool)
    ensures isStrongBlow == IsStrongBlow(FeaturesOf(frequencyData[..], timeData[..]))
  {
    var lowFreqRange, lowFreqSum, lowFreqMax := LowFrequencyStats(frequencyData);
    var timeMax := TimePeak(timeData);
    isStrongBlow := IsStrongBlow(Frame(lowFreqSum, lowFreqRange, lowFreqMax, timeMax));
  }

  /** A zero-filled buffer of length n, as a fresh Uint8Array is. */
  function Zeros(n: nat): (z: seq<byte>)
    ensures |z| == n && forall i :: 0 <= i < n ==> z[i] == 0
  {
    seq(n, _ => 0)
  }
}
