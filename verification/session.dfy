/** The component's microphone state as a value, and the effect of each
    event on it: a start click (App.tsx:27-57, App.tsx:116-123), one run of
    the detection callback (App.tsx:59-114), an animation frame delivering a
    pending callback, and the unmount cleanup (App.tsx:19-25). The class in
    App implements these one event at a time. */
module SessionModel {
  import opened Classifier

  /** listening and blownOut are the two state flags; hasContext and
      hasAnalyser say whether the audio-context and analyser refs are set;
      tickScheduled whether an animation-frame callback is pending; count is
      the current session's sustained-blow counter; closes[i] is how many
      times the i-th audio context created has been closed; leaked holds the
      indices of the contexts a failed start created but never stored in the
      ref; mounted is false once the cleanup has run. */
  datatype Session = Session(
    listening: bool,
    blownOut: bool,
    hasContext: bool,
    hasAnalyser: bool,
    tickScheduled: bool,
    count: nat,
    closes: seq<nat>,
    leaked: set<nat>,
    mounted: bool)

  /** The state at mount: nothing listening, nothing created. */
  const Initial: Session := Session(false, false, false, false, false, 0, [], {}, true)

  /** What holds between events. While mounted, a session is live (listening)
      exactly when a tick is pending and exactly when the context ref is set;
      its counter is below the required number; the context in the ref is the
      newest one and, besides the leaked ones, the only one not yet closed;
      every other one was closed exactly once. Leaked contexts are never
      closed. After unmount no tick is pending and every context that is not
      leaked was closed exactly once. */
  ghost predicate Inv(s: Session)
  {
    && s.count <= RequiredSustainedFrames
    && (s.blownOut ==> !s.listening)
    && (forall i :: i in s.leaked ==> i < |s.closes|)
    && (s.hasContext ==> |s.closes| > 0 && |s.closes| - 1 !in s.leaked)
    && (forall i :: 0 <= i < |s.closes| ==>
          s.closes[i] == if i in s.leaked || (s.mounted && s.hasContext && i == |s.closes| - 1) then 0 else 1)
    && (s.mounted ==>
          && (s.listening <==> s.tickScheduled)
          && (s.listening <==> s.hasContext)
          && (s.listening ==> s.hasAnalyser && s.count < RequiredSustainedFrames))
    && (!s.mounted ==> !s.tickScheduled)
  }

  /** The close counts after closing the context in the ref, if there is one. */
  function CloseContext(s: Session): (closes: seq<nat>)
    requires s.hasContext ==> |s.closes| > 0
    ensures |closes| == |s.closes|
    ensures forall i :: 0 <= i < |closes| ==>
              closes[i] == if s.hasContext && i == |s.closes| - 1 then s.closes[i] + 1 else s.closes[i]
  {
    if s.hasContext then s.closes[|s.closes| - 1 := s.closes[|s.closes| - 1] + 1] else s.closes
  }

  /** One run of the detection callback, given whether its frame is a strong blow. */
  function DetectBlowStep(s: Session, blow: bool): Session
    requires s.hasContext ==> |s.closes| > 0
  {
    if !s.hasAnalyser then s
    else if Confirms(s.count, blow) then
      s.(count := Leak(s.count, blow), blownOut := true, listening := false,
         closes := CloseContext(s), hasContext := false)
    else
      s.(count := Leak(s.count, blow), tickScheduled := true)
  }

  /** How the audio set-up of a start click ends. AccessFailed: getUserMedia
      rejects, or the AudioContext constructor throws, so no context exists.
      GraphFailed: the context was created but building the analyser graph
      threw, so the context is neither stored in the ref nor closed.
      Started: the graph is built and stored. */
  datatype MicOutcome = AccessFailed | GraphFailed | Started

  /** A start click. The first detection tick runs inside the click handler;
      blow is that tick's verdict. */
  function StartStep(s: Session, outcome: MicOutcome, blow: bool): Session
  {
    if s.listening then s
    else
      match outcome
      case AccessFailed => s.(listening := false)
      case GraphFailed => s.(listening := false, closes := s.closes + [0], leaked := s.leaked + {|s.closes|})
      case Started => DetectBlowStep(Launch(s), blow)
  }

  /** The state a successful start hands to its first tick: listening, the
      flag cleared, a new context and analyser in the refs, the counter at 0. */
  function Launch(s: Session): Session
  {
    s.(listening := true, blownOut := false, hasContext := true, hasAnalyser := true,
       count := 0, closes := s.closes + [0])
  }

  /** An animation frame: the pending callback, if any, stops being pending and runs. */
  function FrameStep(s: Session, blow: bool): Session
    requires s.hasContext ==> |s.closes| > 0
  {
    if s.tickScheduled then DetectBlowStep(s.(tickScheduled := false), blow) else s
  }

  /** The unmount cleanup: cancel the pending frame and close the context in
      the ref, if any. The ref itself is left as it is. */
  function UnmountStep(s: Session): Session
    requires s.hasContext ==> |s.closes| > 0
  {
    s.(tickScheduled := false, mounted := false, closes := CloseContext(s))
  }

  /** A run of animation frames, each with its verdict. */
  function RunFrames(s: Session, blows: seq<bool>): Session
    requires Inv(s)
    decreases |blows|
  {
    if blows == [] then s
    else
      FramePreservesInv(s, blows[0]);
      RunFrames(FrameStep(s, blows[0]), blows[1..])
  }

  /** A tick that finds no analyser in the ref returns at once and changes nothing. */
  lemma NoAnalyserTickIsNoOp(s: Session, blow: bool)
    requires !s.hasAnalyser && (s.hasContext ==> |s.closes| > 0)
    ensures DetectBlowStep(s, blow) == s
  {
  }

  lemma InitialIsValid()
    ensures Inv(Initial) && Initial.mounted && !Initial.listening
  {
  }

  /** The detection callback, run while its session is live and nothing else
      is pending, keeps the invariant: it either reschedules itself or ends
      the session, closing its context once. */
  lemma DetectBlowPreservesInv(s: Session, blow: bool)
    requires Inv(s.(tickScheduled := true)) && !s.tickScheduled && s.mounted && s.listening
    ensures Inv(DetectBlowStep(s, blow))
  {
  }

  /** The first tick of a successful start runs with the invariant holding,
      that tick counted as the pending one. */
  lemma StartedIsTicking(s: Session)
    requires Inv(s) && s.mounted && !s.listening
    ensures Inv(Launch(s).(tickScheduled := true))
  {
  }

  /** A start click while mounted keeps the invariant. */
  lemma StartPreservesInv(s: Session, outcome: MicOutcome, blow: bool)
    requires Inv(s) && s.mounted
    ensures Inv(StartStep(s, outcome, blow)) && StartStep(s, outcome, blow).mounted
  {
  }

  /** An animation frame keeps the invariant. */
  lemma FramePreservesInv(s: Session, blow: bool)
    requires Inv(s)
    ensures Inv(FrameStep(s, blow)) && FrameStep(s, blow).mounted == s.mounted
  {
  }

  /** The unmount cleanup leaves no tick pending and every audio context
      that reached the ref closed exactly once; a context the detector already
      closed (its ref then being null) is not closed again, and a context
      leaked by a failed start stays open. */
  lemma UnmountReleasesEverything(s: Session)
    requires Inv(s) && s.mounted
    ensures Inv(UnmountStep(s))
    ensures !UnmountStep(s).tickScheduled
    ensures forall i :: 0 <= i < |s.closes| ==>
              UnmountStep(s).closes[i] == if i in s.leaked then 0 else 1
    ensures !s.hasContext ==> UnmountStep(s).closes == s.closes
  {
  }

  /** A start whose analyser graph fails after the context was created
      leaves that context open, and nothing that follows closes it: not the
      animation frames (none is pending) and not the unmount cleanup (the ref
      never held it). */
  lemma LateFailureLeaksContext(s: Session, blow: bool, blows: seq<bool>)
    requires Inv(s) && s.mounted && !s.listening
    ensures var r := StartStep(s, GraphFailed, blow);
      && Inv(r) && !r.listening && !r.hasContext && !r.tickScheduled
      && |r.closes| == |s.closes| + 1 && r.closes[|s.closes|] == 0
      && RunFrames(r, blows) == r
      && UnmountStep(r).closes[|s.closes|] == 0
  {
  }

  /** A start click while listening changes nothing: no new context, counter or tick. */
  lemma StartWhileListeningIsNoOp(s: Session, outcome: MicOutcome, blow: bool)
    requires s.listening
    ensures StartStep(s, outcome, blow) == s
  {
  }

  /** A start click on an idle session: when access fails nothing changes and
      the session is not listening; when the graph fails, only a new, unclosed
      and leaked context is added; when it succeeds the session is live with
      a fresh context, blown-out cleared, and the counter started from zero
      (the first tick can only bring it to one, and only on a blow). */
  lemma StartOutcome(s: Session, outcome: MicOutcome, blow: bool)
    requires Inv(s) && s.mounted && !s.listening
    ensures var r := StartStep(s, outcome, blow);
      && (outcome == AccessFailed ==> r == s && !r.listening)
      && (outcome == GraphFailed ==>
            && r == s.(closes := s.closes + [0], leaked := s.leaked + {|s.closes|})
            && !r.listening && !r.tickScheduled && !r.hasContext)
      && (outcome == Started ==>
            && r.listening && !r.blownOut && r.tickScheduled && r.hasContext
            && r.count == (if blow then 1 else 0)
            && r.closes == s.closes + [0] && r.leaked == s.leaked)
  {
  }

  /** A pending callback that confirms ends the session: blown out, not
      listening, context closed once and released, no further tick. One that
      does not confirm schedules exactly one next tick and moves the counter
      by the leaky rule. */
  lemma FrameOutcome(s: Session, blow: bool)
    requires Inv(s) && s.tickScheduled
    ensures var r := FrameStep(s, blow);
      && (Confirms(s.count, blow) ==>
            && r.blownOut && !r.listening && !r.hasContext && !r.tickScheduled
            && |s.closes| > 0 && r.closes == s.closes[|s.closes| - 1 := 1]
            && r.count == RequiredSustainedFrames)
      && (!Confirms(s.count, blow) ==>
            && r.listening && r.tickScheduled && r.hasContext && r.closes == s.closes
            && r.count == Leak(s.count, blow) && r.count < RequiredSustainedFrames)
  {
  }

  /** Once no tick is pending (after confirmation, a failed start, or the
      cleanup), animation frames change nothing: a confirmed session is terminal. */
  lemma {:induction false} IdleIgnoresFrames(s: Session, blows: seq<bool>)
    requires Inv(s) && !s.tickScheduled
    ensures RunFrames(s, blows) == s
    decreases |blows|
  {
    if blows != [] {
      IdleIgnoresFrames(s, blows[1..]);
    }
  }

  /** A live session fed a run of frames behaves as the debounced counter
      says: still armed, it is the same session with the counter moved;
      confirmed, it has ended with its context closed once and no tick pending. */
  lemma {:induction false} RunFramesMatchesDebounce(s: Session, blows: seq<bool>)
    requires Inv(s) && s.mounted && s.listening
    ensures var r := RunFrames(s, blows);
      match Debounce(s.count, blows)
      case Armed(c) => r == s.(count := c) && c < RequiredSustainedFrames
      case Confirmed(_) =>
        && r.blownOut && !r.listening && !r.hasContext && !r.tickScheduled && r.mounted
        && r.closes == s.closes[|s.closes| - 1 := 1]
    decreases |blows|
  {
    if blows != [] {
      FrameOutcome(s, blows[0]);
      var s' := FrameStep(s, blows[0]);
      FramePreservesInv(s, blows[0]);
      if Confirms(s.count, blows[0]) {
        IdleIgnoresFrames(s', blows[1..]);
      } else {
        RunFramesMatchesDebounce(s', blows[1..]);
        assert s' == s.(count := s'.count);
      }
    }
  }

  /** Three strong-blow frames on a fresh session confirm exactly on the
      third: the click's own tick and the next frame leave it listening, the
      frame after ends it. */
  lemma ThreeBlowsConfirmOnThird(s: Session)
    requires Inv(s) && s.mounted && !s.listening
    ensures var s1 := StartStep(s, Started, true);
      && s1.listening && s1.count == 1
      && FrameStep(s1, true).listening && FrameStep(s1, true).count == 2
      && var s3 := FrameStep(FrameStep(s1, true), true);
         s3.blownOut && !s3.listening && !s3.tickScheduled && !s3.hasContext
  {
  }

  /** Blow and no-blow frames alternating on a freshly started session (the
      click's tick a blow) keep it listening with the counter at 1 after an
      even number of further frames and 0 after an odd number: it never confirms. */
  lemma AlternatingKeepsListening(s: Session, n: nat)
    requires Inv(s) && s.mounted && !s.listening
    ensures var s1 := StartStep(s, Started, true);
      var r := RunFrames(s1, Alternating(n + 1)[1..]);
      r.listening && !r.blownOut && r.tickScheduled && r.count == (n + 1) % 2
  {
    var s1 := StartStep(s, Started, true);
    StartPreservesInv(s, Started, true);
    var run := Alternating(n + 1);
    assert run == [run[0]] + run[1..];
    AlternatingNeverConfirms(n + 1);
    RunFramesMatchesDebounce(s1, run[1..]);
  }
}
