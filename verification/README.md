# Birthday cake: the "blow out the candles" detector

The birthday-cake page listens to the microphone and decides that the user
has blown out the candles. This project models that detector, which lives in
the `App` component (`App.tsx`):

- the start click `startMicrophone`;
- the per-frame callback `detectBlow`, which starts from the click and then
  re-requests itself;
- the unmount cleanup effect.

Each tick reads two byte buffers from the analyser. The frequency buffer has
256 bins and the time-domain buffer has 512 samples. The tick reduces them to
three features:

- the sum and the maximum of the first `floor(256 * 0.3) = 76` bins;
- the peak absolute deviation of the samples from the midpoint 128.

The tick calls a frame a strong blow only if three strict gates pass:
low-frequency average > 180, low-frequency maximum > 200, time peak > 60. A
leaky counter debounces the verdict: a blow adds one, anything else takes one
away but never goes below zero. When the counter reaches 3, the session is
confirmed. The candles are blown out, listening stops, the audio context is
closed and its ref cleared, and no further frame is requested.

The project has four modules:

- `Features` (`features.dfy`): the byte buffers, the analyser copying a
  snapshot into them, and specification functions for the three features.
  It also holds the two loops of the tick, written as methods over arrays
  and proved against those functions.
- `Classifier` (`classifier.dfy`): the strong-blow gate and the leaky
  counter. It defines `Debounce`, a frame-by-frame run that stops at
  confirmation, as the detection loop does. It also defines `Leaky`, the
  plain fold of the counter, as an independent reference. A lemma proves
  the two agree.
- `SessionModel` (`session.dfy`): the component's microphone state as a
  value. It gives the effect of each event: a start click, a run of the
  detection callback, an animation frame, and the unmount cleanup. It holds
  the session invariant and the lemmas about runs of frames.
- `App` (`app.dfy`): class `Microphone`. Its fields are the two state flags,
  the refs, the pending-frame flag, the session counter and the two
  `Uint8Array` buffers. Its methods update those fields in place. Each
  method's postcondition equates the new state with the matching
  `SessionModel` function of the old state.

The environment's inputs are parameters:

- how the audio set-up of a start click ends (`MicOutcome`). `AccessFailed`
  means `getUserMedia` rejected or the `AudioContext` constructor threw.
  `GraphFailed` means the context was created, but building the analyser
  graph threw. `Started` means the graph was built;
- the analyser's snapshots for each tick (`frequencySnapshot`,
  `timeSnapshot`);
- the arrival of an animation frame (a call to `AnimationFrame`).

Closing an audio context is recorded in a ghost sequence, with one close
count per context created. A ghost set records the contexts that a
`GraphFailed` start created but never stored in the ref.

Points of the code that the model keeps as written:

- **The only blow rule is the three-gate test with the leaky counter**
  (App.tsx:86-111).
- **There is no zero-denominator guard** (App.tsx:74). A zero range gives
  `0 / 0`, which is NaN, and `NaN > 180` is false. So such a frame is never
  a strong blow (`Classifier.SourceStrongBlow`).
- **Time-domain silence is 128** (App.tsx:79). An all-128 buffer has peak
  0. An all-zero buffer is a full-scale signal and has peak 128
  (`Features.SilenceHasNoPeak`).
- **The first tick runs inside the click handler** (App.tsx:116). A
  successful start leaves the counter at 1 after a blow frame, or at 0
  otherwise.
- **A context created before a graph failure is never closed**
  (App.tsx:32-37, App.tsx:117-123). The catch block neither stores it in
  `audioContextRef` nor closes it, and the cleanup only closes the context
  in the ref (`SessionModel.LateFailureLeaksContext`).

## Model

| member | source | states |
|---|---|---|
| Features.Fill | App.tsx:62-63 | the buffer after a snapshot is copied in keeps its length; each entry comes from the snapshot where the snapshot has one, and from the old buffer otherwise |
| Features.CopySnapshot | App.tsx:62-63 | the analyser's copy into a component-owned array leaves it equal to `Fill` of its old contents |
| Features.LowFreqRange | App.tsx:67 | the number of low-frequency bins is floor(n * 3 / 10): r * 10 <= 3n < (r + 1) * 10, and never more than n |
| Features.ConfiguredLowFreqRange | App.tsx:51-53 | with fftSize 512 there are 256 bins, of which the first 76 are examined |
| Features.Sum | App.tsx:68-71 | the low-frequency sum is at most 255 per bin, and is 0 exactly when every bin is 0 |
| Features.Max | App.tsx:69-72 | the low-frequency maximum is at most 255 and at least every bin, and equals one of the bins (or 0 on an empty range) |
| Features.Deviation | App.tsx:79 | a sample's amplitude is its distance from 128, at most 128 |
| Features.Peak | App.tsx:77-81 | the time peak is at most 128 and at least every sample's deviation, and equals one of them (or 0 on an empty buffer) |
| Features.FeaturesOf | App.tsx:67-81 | the features of a tick are bounded: range <= bin count, sum <= 255 * range, max <= 255, time peak <= 128 |
| Features.LowFrequencyStats | App.tsx:67-73 | the loop over the low bins returns exactly their count, sum and maximum |
| Features.TimePeak | App.tsx:77-81 | the loop over the time-domain samples returns exactly the peak deviation from 128 |
| Features.SilenceHasNoPeak | App.tsx:77-81 | an all-128 time buffer has peak 0; a non-empty all-zero one has peak 128 |
| Classifier.IsStrongBlow | App.tsx:86-92 | a frame is a strong blow when the range is non-empty, sum > 180 * range, maximum > 200 and time peak > 60; `IsStrongBlowMatchesSource` proves it equals the gate on the average |
| Classifier.AverageGateIsExact | App.tsx:74-90 | for a non-empty range, average > 180 holds exactly when sum > 180 * range |
| Classifier.IsStrongBlowMatchesSource | App.tsx:74-92 | the integer gate agrees on every frame with the gate written against the average, where an empty range (NaN average) never passes |
| Classifier.GatesAreStrict | App.tsx:86-92 | a frame at or below any one threshold (average 180, maximum 200, time peak 60), or with an empty range, is not a strong blow |
| Classifier.SilentSpectrumIsNotBlow | App.tsx:67-92 | buffers whose low-frequency bins are all 0 give sum 0 and maximum 0 and are never a strong blow, whatever the higher bins and the time buffer hold |
| Classifier.DebounceMatchesLeaky | App.tsx:94-111 | the stopping loop stays armed exactly when no prefix brings the plain leaky counter to 3, with the fold's count; otherwise it confirms on the first frame whose prefix reaches exactly 3 |
| Classifier.Leak | App.tsx:94-111 | the counter after one verdict: one more after a blow, one less but not below zero otherwise; `QuietFramesDrain` and `BlowFramesClimb` state its effect over runs |
| Classifier.Confirms | App.tsx:94-97 | a verdict ends the session when it is a blow that brings the counter to 3 |
| Classifier.Debounce | App.tsx:94-113 | the tick-by-tick run that stops at the first confirming frame and reports its index, or stays armed with the final count; `DebounceMatchesLeaky` proves it against the plain fold `Leaky` |
| Classifier.ConfirmedRunHasBlows | App.tsx:94-111 | a run that confirms from counter c holds at least 3 - c blows |
| Classifier.DebounceStopsAtConfirmation | App.tsx:106 | the loop reads nothing after the confirming frame: the run cut just after it confirms on the same frame, which lies inside the run |
| Classifier.ConfirmationNeedsSustainedBlows | App.tsx:94-111 | confirming from counter c takes at least 3 - c blow frames among those up to and including the confirming one |
| Classifier.QuietFramesDrain | App.tsx:108-111 | m non-blow frames take counter c to max(0, c - m) and never confirm |
| Classifier.BlowFramesClimb | App.tsx:94-107 | k blow frames on a counter c < 3 either leave it armed at c + k, or confirm on the frame that brings it to 3 |
| Classifier.BlowsThenQuiet | App.tsx:94-111 | from 0, k blows then m quiet frames end armed at max(0, k - m) when k < 3, and confirm on the third frame otherwise |
| Classifier.AlternatingNeverConfirms | App.tsx:94-111 | alternating blow/no-blow frames from 0 give counter 1, 0, 1, 0, ... and never confirm |
| SessionModel.Inv | App.tsx:11-124 | what holds between events: while mounted, listening exactly when a frame is pending and exactly when the context ref is set, the counter below 3 while listening; every context has close count 0 if it is leaked or is the live one in the ref, and 1 otherwise; preserved by `StartPreservesInv`, `FramePreservesInv` and `UnmountReleasesEverything` |
| SessionModel.DetectBlowStep | App.tsx:59-114 | one tick: without an analyser nothing changes; a confirming verdict sets blown out, clears listening and closes and releases the context; any other verdict moves the counter by the leaky rule and requests the next frame; `NoAnalyserTickIsNoOp`, `FrameOutcome` and `DetectBlowPreservesInv` state these |
| SessionModel.NoAnalyserTickIsNoOp | App.tsx:60 | a tick that finds no analyser in the ref returns at once and changes nothing |
| SessionModel.StartStep | App.tsx:27-123 | a start click: no change while listening; on access failure only listening is cleared; on graph failure a leaked, unclosed context is added; on success `Launch` and then the first tick; `StartOutcome` and `StartPreservesInv` state its effect |
| SessionModel.Launch | App.tsx:42-57 | after the graph is built: listening on, blown out cleared, a new open context and the analyser in the refs, the counter at 0; `StartedIsTicking` proves the first tick starts from a valid state |
| SessionModel.FrameStep | App.tsx:113 | an animation frame runs the pending tick, if any, and otherwise changes nothing; `FrameOutcome` and `IdleIgnoresFrames` state its effect |
| SessionModel.UnmountStep | App.tsx:19-25 | the cleanup cancels the pending frame and closes the context in the ref, if any; `UnmountReleasesEverything` states its effect |
| SessionModel.CloseContext | App.tsx:102-105 | closing the context in the ref adds one close to the newest context and touches no other |
| SessionModel.InitialIsValid | App.tsx:12-16 | the state at mount satisfies the session invariant |
| SessionModel.DetectBlowPreservesInv | App.tsx:59-114 | a detection tick on a live session keeps the invariant: the counter stays below 3 while listening, and each context is closed at most once |
| SessionModel.StartedIsTicking | App.tsx:42-57 | the first tick of a successful start runs with the invariant holding, that tick counted as the pending one |
| SessionModel.StartPreservesInv | App.tsx:27-124 | a start click keeps the invariant, whichever way the audio set-up ends, so at most one context that reached the ref is open |
| SessionModel.FramePreservesInv | App.tsx:113 | an animation frame keeps the invariant |
| SessionModel.UnmountReleasesEverything | App.tsx:19-25 | the cleanup leaves no frame pending; every context that reached the ref ends closed exactly once, and one already closed on confirmation is not closed again; a context leaked by a graph failure stays unclosed |
| SessionModel.LateFailureLeaksContext | App.tsx:30-123 | a start whose graph fails after the context was created adds one unclosed context that no frame and not the cleanup ever close; the session stays idle with no frame pending |
| SessionModel.StartWhileListeningIsNoOp | App.tsx:28 | a start click while listening changes nothing: no new context, counter or tick |
| SessionModel.StartOutcome | App.tsx:30-123 | a start whose access fails leaves the state unchanged and not listening; one whose graph fails only adds a new unclosed, leaked context; a successful one leaves it listening, not blown out, with a new open context, one tick pending, and the counter at 1 after a blow frame and 0 otherwise |
| SessionModel.FrameOutcome | App.tsx:94-113 | a confirming tick sets blown out, clears listening, closes the context once, clears the ref and requests no frame; any other tick requests exactly one next frame and moves the counter by the leaky rule, below 3 |
| SessionModel.IdleIgnoresFrames | App.tsx:106 | with no frame pending, any run of frames changes nothing: a confirmed session is terminal |
| SessionModel.RunFramesMatchesDebounce | App.tsx:59-114 | a live session fed a run of frames ends as `Debounce` says: armed, it is unchanged except for the counter (below 3); confirmed, it has ended with its context closed once |
| SessionModel.ThreeBlowsConfirmOnThird | App.tsx:94-107 | on a fresh session, three strong-blow ticks give counter 1, then 2, then confirm; listening stops at once |
| SessionModel.AlternatingKeepsListening | App.tsx:94-113 | a fresh session fed alternating blow/no-blow frames stays listening with a tick pending, and its counter alternates 1, 0, ... |
| App.Microphone.constructor | App.tsx:12-16 | the component mounts not listening, not blown out, with no context, analyser or pending frame |
| App.Microphone.DetectBlow | App.tsx:59-114 | the callback refills both buffers from the snapshots and updates the fields as `DetectBlowStep` of the old state with the frame's verdict; the invariant holds afterwards |
| App.Microphone.StartMicrophone | App.tsx:27-124 | the click updates the fields as `StartStep`; a no-op click or one whose access fails changes nothing; one whose graph fails keeps the buffers and records the leaked context; a successful one allocates zeroed 256- and 512-byte buffers and runs the first tick on them |
| App.Microphone.BeginListening | App.tsx:42-116 | after the graph is built, the refs and flags are set, zeroed 256- and 512-byte buffers are allocated and the first tick runs on them; the new state is `DetectBlowStep` of `Launch` of the old |
| App.Microphone.AnimationFrame | App.tsx:113 | a frame runs the pending callback if there is one and otherwise changes nothing; the new state is `FrameStep` of the old |
| App.Microphone.Unmount | App.tsx:19-25 | the cleanup cancels the pending frame and leaves every context that reached the ref closed exactly once, and every leaked one unclosed |
| App.ClassifyFrame | App.tsx:62-92 | the tick's feature loops and gates decide exactly `IsStrongBlow` of the features of the two buffers |
| App.Zeros | App.tsx:52-53 | a newly allocated buffer is all zero |

## Left out

- Web Audio and media internals are left out. This covers `getUserMedia`,
  `AudioContext`, `createAnalyser`, `createMediaStreamSource`, the FFT and
  `smoothingTimeConstant = 0.8` (App.tsx:31-41). The model takes the
  analyser's snapshots as inputs. It takes how the set-up ends as a
  `MicOutcome`: access failed, graph failed after the context was created,
  or started. Which call threw, and the error itself, are not modelled.
- The `await` in the start click is modelled as atomic. Two clicks before
  permission resolves are not modelled, and neither is an unmount while
  permission is pending. In the code, the first case starts two loops and
  overwrites the first context ref; the second creates a context after the
  cleanup has run. Modelling either needs the start split into two events.
- App.Microphone.StartMicrophone and App.Microphone.Unmount require the
  component to be mounted. React runs the cleanup once and removes the
  button after unmount.
- React state semantics are simplified. `isListening` and `candlesBlownOut`
  are read as their current values. The code reads them from the closure
  of the last render, and the re-render batching is not modelled.
- `requestAnimationFrame` and `cancelAnimationFrame` are a
  pending-frame flag. The numeric frame id in `animationFrameRef` is not
  modelled, so neither is cancelling an id that has already fired (a no-op).
- The media stream and its tracks are not modelled. The code never stops
  them: closing the context, confirming and unmounting all leave the
  microphone stream running.
- `AudioContext.close()` returns a promise. The model counts the close at
  the call.
- `floor(bufferLength * 0.3)` is computed in integers as `n * 3 / 10`.
  This equals the floating-point result for the configured 256 bins (76).
  The model does not claim this for every n.
- The average is compared exactly in integers (`sum > 180 * range`). This
  agrees with the floating-point quotient for these magnitudes: at most
  255 * 76 over at most 76.
- `alert` and `console.error` (App.tsx:118-121) are I/O.
- The rest of the component is not part of this model: view mode, custom
  text, UI toggle and rendering (App.tsx:7-9, App.tsx:126-163).
- The scene components, `components/UIOverlay.tsx` and `types.ts` are not
  part of this model. They are rendering, timers and random placement,
  with no contract beyond reading the two flags.
