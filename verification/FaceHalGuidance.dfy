/** What the user sees while an operation looks at frames: guidance, remaining counts and first-frame markers. */
module FaceHalGuidance {
  import opened Wrappers
  import opened Callbacks
  import opened Traces
  import opened FaceHal
  import opened FaceHalAttempts
  import opened FaceHalReports
  import AuthEngine
  import AuthLoop
  import Camera
  import EnrollLoop

  /** All guidance in a trace, in order. */
  function Guidances(trace: Trace<Event>): seq<AcquiredInfo> {
    match trace
    case Empty => []
    case Then(before, e) => Guidances(before) + if e.call.Guidance? then [e.call.info] else []
  }

  /** All remaining counts in a trace, in order. */
  function Counts(trace: Trace<Event>): seq<int> {
    match trace
    case Empty => []
    case Then(before, e) => Counts(before) + if e.call.EnrollmentProgress? then [e.call.remaining] else []
  }

  /** The number of first-frame markers in a trace. */
  function Markers(trace: Trace<Event>): nat {
    match trace
    case Empty => 0
    case Then(before, e) => Markers(before) + if e.call.FirstFrame? then 1 else 0
  }

  lemma {:induction false} LoopShows(trace: Trace<Event>, x: Session, at: int, calls: Trace<Callback>,
                                     held: Camera.Handles)
    ensures Guidances(Extended(trace, x, at, calls, held)) == Guidances(trace) + GuidanceOf(calls)
    ensures Counts(Extended(trace, x, at, calls, held)) == Counts(trace) + ProgressOf(calls)
    ensures Markers(Extended(trace, x, at, calls, held)) == Markers(trace) + MarkersOf(calls)
  {
    if calls.Empty? {
    } else {
      LoopShows(trace, x, at, calls.before, held);
    }
  }

  // ----- Attempts

  lemma AttemptShows(c: Setup, s: State, x: Session, e: AuthEnv)
    requires Rejection(c, s, x, e).None?
    ensures var r := Authenticated(c, s, x, e);
            && Guidances(r.trace) == Guidances(s.trace) + GuidanceOf(AttemptFrameCalls(c, s, e))
            && Counts(r.trace) == Counts(s.trace) + ProgressOf(AttemptFrameCalls(c, s, e))
  {
    var s1 := WithTracker(s, x.user);
    assert Attempt(c, s1, e) == Attempt(c, s, e) && AttemptFrameCalls(c, s1, e) == AttemptFrameCalls(c, s, e);
    var quiet, during, f := AttemptedTold(c, s1, x, e);
    LoopShows(s.trace, x, s.clock, quiet, during);
    FinalShowsNothing(s1, Attempted(c, s1, x, e), Extended(s.trace, x, s.clock, quiet, during), x, e,
                      AttemptVerdict(c, s1, e), f);
  }

  lemma FinalShowsNothing(s: State, r: State, trace: Trace<Event>, x: Session, e: AuthEnv, verdict: Verdict, f: Final)
    requires AttemptEnds(s, r, x, e, Some(verdict), f)
    ensures Guidances(Closed(trace, f)) == Guidances(trace) && Counts(Closed(trace, f)) == Counts(trace)
  {
  }

  /** The guidance for a face: none, closed eyes where attention is required, or good. */
  function FaceInfo(face: Option<AuthLoop.Face>, attention: bool): AcquiredInfo {
    if face.None? then NOT_DETECTED else if attention && !face.value.eyesOpen then POOR_GAZE else GOOD
  }

  ghost function FaceInfos(s: State, e: AuthEnv, n: nat): seq<AcquiredInfo>
    requires n <= |e.frames|
  {
    seq(n, k requires 0 <= k < n =>
      FaceInfo(AuthLoop.Seen(e.startedAt, e.frames, k), s.record.requireAttention))
  }

  /** The frames an attempt looks at: up to the first match, or all. */
  ghost predicate LooksAt(c: Setup, s: State, e: AuthEnv, n: nat) {
    && n <= |e.frames|
    && (forall j: nat :: j + 1 < n ==> !MatchesAt(c, s, e, j))
    && (n == |e.frames| || (n > 0 && MatchesAt(c, s, e, n - 1)))
  }

  ghost predicate MatchesAt(c: Setup, s: State, e: AuthEnv, k: nat)
    requires k < |e.frames|
  {
    (c.useTee || s.template.Some?) &&
    AuthLoop.Matching(AuthLoop.Seen(e.startedAt, e.frames, k), s.record.requireAttention)
  }

  lemma ConsumedLooks(c: Setup, s: State, e: AuthEnv)
    ensures LooksAt(c, s, e, AuthLoop.Consumed(Attempt(c, s, e), e.frames))
  {
    var a := Attempt(c, s, e);
    AuthLoop.FirstAcceptIsFirst(a, e.frames, 0);
    forall k: nat | k < |e.frames|
      ensures AuthLoop.Accepts(a, e.frames, k) == MatchesAt(c, s, e, k)
    {
      AuthLoop.SeenIsFaceAt(a, e.frames, k);
    }
  }

  /** An attempt shows one guidance for each run of equal infos of the frames up to the first match. */
  lemma AttemptGuides(c: Setup, s: State, x: Session, e: AuthEnv, n: nat)
    requires !c.authAvailable && Rejection(c, s, x, e).None? && LooksAt(c, s, e, n)
    ensures var r := Authenticated(c, s, x, e);
            && Guidances(r.trace) == Guidances(s.trace) + Destutter(FaceInfos(s, e, n))
            && Counts(r.trace) == Counts(s.trace)
  {
    var a := Attempt(c, s, e);
    AttemptShows(c, s, x, e);
    ConsumedLooks(c, s, e);
    LooksAtOnce(c, s, e, n, AuthLoop.Consumed(a, e.frames));
    AuthLoop.GuidanceIsDestuttered(a, e.frames, n);
    NoCounts(a, e.frames, n);
    forall k: nat | k < n
      ensures AuthLoop.Info(a, e.frames, k) == FaceInfos(s, e, n)[k]
    {
      AuthLoop.InfoOfFrame(a, e.frames, k);
    }
    assert AuthLoop.Infos(a, e.frames)[..n] == FaceInfos(s, e, n);
  }

  lemma LooksAtOnce(c: Setup, s: State, e: AuthEnv, m: nat, n: nat)
    requires LooksAt(c, s, e, m) && LooksAt(c, s, e, n)
    ensures m == n
  {
  }

  lemma {:induction false} NoCounts(a: AuthLoop.Attempt, fs: seq<AuthLoop.Frame>, k: nat)
    requires k <= |fs|
    ensures ProgressOf(AuthLoop.GuideCalls(a, fs, k)) == []
  {
    if k == 0 {
    } else {
      NoCounts(a, fs, k - 1);
      AfterFrameSequences(AuthLoop.GuideCalls(a, fs, k - 1), false, AuthLoop.Guide(a, fs, k - 1), 0, None);
    }
  }

  // ----- Enrolments

  /** An enrolment that runs its loop shows what the loop shows, and 0 at the end if it succeeds. */
  lemma EnrolShows(c: Setup, s: State, x: Session, challenge: int, preview: bool, e: EnrollEnv)
    requires EnrollRefusal(s, x, challenge, e).None? && Camera.StartSucceeds(e.camera)
    ensures var r := Enrolled(c, s, x, challenge, preview, e);
            && Guidances(r.trace) == Guidances(s.trace) + GuidanceOf(EnrolFrameCalls(c, e))
            && Counts(r.trace) == Counts(s.trace) + ProgressOf(EnrolFrameCalls(c, e)) +
                                  (if EnrolGranted(c, s, x, challenge, e) then [0] else [])
            && Markers(r.trace) == Markers(s.trace) + MarkersOf(EnrolFrameCalls(c, e))
  {
    var quiet, during, f := EnrolledTold(c, s, x, challenge, preview, e);
    LoopShows(s.trace, x, s.clock, quiet, during);
    var r, granted := Enrolled(c, s, x, challenge, preview, e), EnrolGranted(c, s, x, challenge, e);
    EndShows(c, s, x, e, r, granted, f, Extended(s.trace, x, s.clock, quiet, during));
  }

  lemma EndShows(c: Setup, s: State, x: Session, e: EnrollEnv, r: State, success: bool, f: Final, trace: Trace<Event>)
    requires EnrolEnds(c, s, x, e, r, success, f)
    ensures Guidances(Closed(trace, f)) == Guidances(trace) && Markers(Closed(trace, f)) == Markers(trace)
    ensures Counts(Closed(trace, f)) == Counts(trace) + if success then [0] else []
  {
  }

  lemma {:induction false} MarkedOnce(fs: seq<EnrollLoop.Frame>, id: int, k: nat)
    requires k <= |fs|
    ensures MarkersOf(EnrollLoop.EnrollCalls(fs, id, k)) == if k == 0 then 0 else 1
  {
    if k == 0 {
    } else {
      MarkedOnce(fs, id, k - 1);
      AfterFrameMarkers(EnrollLoop.EnrollCalls(fs, id, k - 1), k == 1, EnrollLoop.Guide(fs, k - 1), id,
                          EnrollLoop.Report(fs, k - 1));
    }
  }

  lemma {:induction false} AuthMarkedOnce(xs: seq<AuthEngine.Answer>, id: int, k: nat)
    requires k <= |xs|
    ensures MarkersOf(AuthEngine.ShownCalls(xs, id, k)) == if k == 0 then 0 else 1
  {
    if k == 0 {
    } else {
      AuthMarkedOnce(xs, id, k - 1);
      AfterFrameMarkers(AuthEngine.ShownCalls(xs, id, k - 1), k == 1, AuthEngine.Guide(xs, k - 1), id,
                          AuthEngine.Report(xs, k - 1));
    }
  }

  /** An enrolment that runs its loop marks the first frame once, if any frame is delivered. */
  lemma EnrolMarks(c: Setup, s: State, x: Session, challenge: int, preview: bool, e: EnrollEnv)
    requires EnrollRefusal(s, x, challenge, e).None? && Camera.StartSucceeds(e.camera)
    ensures Markers(Enrolled(c, s, x, challenge, preview, e).trace) ==
            Markers(s.trace) + if c.authAvailable then (if e.configured && e.answers != [] then 1 else 0)
                               else if e.frames != [] then 1 else 0
  {
    EnrolShows(c, s, x, challenge, preview, e);
    MarkedOnce(e.frames, e.enrollmentId, EnrollLoop.Consumed(e.frames));
    AuthMarkedOnce(e.answers, e.enrollmentId, AuthEngine.Shown(e.answers));
  }

  /** The number of remaining counts in a trace that are not for this enrolment. */
  function OtherCounts(trace: Trace<Event>, id: int): nat {
    match trace
    case Empty => 0
    case Then(before, e) =>
      OtherCounts(before, id) + if e.call.EnrollmentProgress? && e.call.enrollmentId != id then 1 else 0
  }

  lemma {:induction false} LoopCountsFor(trace: Trace<Event>, x: Session, at: int, calls: Trace<Callback>,
                                         held: Camera.Handles, id: int)
    requires CountsFor(calls, id)
    ensures OtherCounts(Extended(trace, x, at, calls, held), id) == OtherCounts(trace, id)
  {
    if calls.Empty? {
    } else {
      LoopCountsFor(trace, x, at, calls.before, held, id);
    }
  }

  lemma {:induction false} CvCountsFor(fs: seq<EnrollLoop.Frame>, id: int, k: nat)
    requires k <= |fs|
    ensures CountsFor(EnrollLoop.EnrollCalls(fs, id, k), id)
  {
    if k == 0 {
    } else {
      CvCountsFor(fs, id, k - 1);
      AfterFrameFor(EnrollLoop.EnrollCalls(fs, id, k - 1), k == 1, EnrollLoop.Guide(fs, k - 1), id,
                    EnrollLoop.Report(fs, k - 1));
    }
  }

  lemma {:induction false} AuthCountsFor(xs: seq<AuthEngine.Answer>, id: int, k: nat)
    requires k <= |xs|
    ensures CountsFor(AuthEngine.ShownCalls(xs, id, k), id)
  {
    if k == 0 {
    } else {
      AuthCountsFor(xs, id, k - 1);
      AfterFrameFor(AuthEngine.ShownCalls(xs, id, k - 1), k == 1, AuthEngine.Guide(xs, k - 1), id,
                    AuthEngine.Report(xs, k - 1));
    }
  }

  /** All counts of an enrolment carry its own new id. */
  lemma EnrolCountsFor(c: Setup, s: State, x: Session, challenge: int, preview: bool, e: EnrollEnv)
    ensures OtherCounts(Enrolled(c, s, x, challenge, preview, e).trace, e.enrollmentId) ==
            OtherCounts(s.trace, e.enrollmentId)
  {
    var quiet, during, f := EnrolledTold(c, s, x, challenge, preview, e);
    CvCountsFor(e.frames, e.enrollmentId, EnrollLoop.Consumed(e.frames));
    AuthCountsFor(e.answers, e.enrollmentId, AuthEngine.Shown(e.answers));
    assert CountsFor(quiet, e.enrollmentId);
    LoopCountsFor(s.trace, x, s.clock, quiet, during, e.enrollmentId);
  }

  /**
   With the in-process engine: guidance is the frames' infos without repetitions, and the counts are what the streaks
   lack of a group of five; a successful enrolment's count down from 4 any number of times, the last time to 0.
   */
  lemma EnrolGuides(c: Setup, s: State, x: Session, challenge: int, preview: bool, e: EnrollEnv)
    requires !c.authAvailable && EnrollRefusal(s, x, challenge, e).None? && Camera.StartSucceeds(e.camera)
    ensures var r := Enrolled(c, s, x, challenge, preview, e);
            && Guidances(r.trace) == Guidances(s.trace) +
                                     Destutter(EnrollLoop.Infos(e.frames)[..EnrollLoop.Consumed(e.frames)])
            && var p := EnrollLoop.StreakCounts(e.frames, EnrollLoop.Consumed(e.frames));
            && EnrollLoop.Countdown(p)
            && (if EnrolGranted(c, s, x, challenge, e)
                then |p| >= 4 && p[|p| - 4..] == [4, 3, 2, 1] && Counts(r.trace) == Counts(s.trace) + p + [0]
                else Counts(r.trace) == Counts(s.trace) + p)
  {
    var n := EnrollLoop.Consumed(e.frames);
    EnrolShows(c, s, x, challenge, preview, e);
    EnrollLoop.GuidanceIsDestuttered(e.frames, e.enrollmentId, n);
    LoopCounts(e.frames, e.enrollmentId);
    if EnrolGranted(c, s, x, challenge, e) { EnrollLoop.CaptureNeedsFiveGoodFrames(e.frames); }
  }

  /** The counts of the enrolment loop count down from 4, and a capture completes the countdown. */
  lemma LoopCounts(fs: seq<EnrollLoop.Frame>, id: int)
    ensures var p := EnrollLoop.StreakCounts(fs, EnrollLoop.Consumed(fs));
            && p == ProgressOf(EnrollLoop.EnrollCalls(fs, id, EnrollLoop.Consumed(fs))) && EnrollLoop.Countdown(p)
            && (EnrollLoop.Captured(fs) != [] ==> |p| >= 4 && p[|p| - 4..] == [4, 3, 2, 1])
  {
    var n := EnrollLoop.Consumed(fs);
    var p := ProgressOf(EnrollLoop.EnrollCalls(fs, id, n));
    EnrollLoop.CountsAreStreaks(fs, id, n);
    EnrollLoop.ProgressCountsDown(fs, id, n);
    if EnrollLoop.Captured(fs) != [] {
      EnrollLoop.SuccessEndsInCountdown(fs, id);
      var q := p + [0];
      assert q[|q| - 5..] == [4, 3, 2, 1, 0];
      assert p[|p| - 4..] == q[|q| - 5..][..4];
    }
  }

  /** With the st_auth engine: guidance likewise, and each of the first four kept frames counts down once. */
  lemma EnrolAuthGuides(c: Setup, s: State, x: Session, challenge: int, preview: bool, e: EnrollEnv)
    requires c.authAvailable && e.configured
    requires EnrollRefusal(s, x, challenge, e).None? && Camera.StartSucceeds(e.camera)
    ensures var r, n := Enrolled(c, s, x, challenge, preview, e), AuthEngine.Shown(e.answers);
            && Guidances(r.trace) == Guidances(s.trace) + Destutter(AuthEngine.Infos(e.answers)[..n])
            && Counts(r.trace) == Counts(s.trace) + [4, 3, 2, 1][..Min(AuthEngine.Keeps(e.answers, n), 4)] +
                                  if EnrolGranted(c, s, x, challenge, e) then [0] else []
  {
    EnrolShows(c, s, x, challenge, preview, e);
    AuthEngine.EnrollTrace(e.answers, e.enrollmentId);
  }

  /** An st_auth attempt shows the infos of its codes without repetitions. */
  lemma AttemptAuthGuides(c: Setup, s: State, x: Session, e: AuthEnv)
    requires c.authAvailable && Rejection(c, s, x, e).None?
    ensures var r, codes := Authenticated(c, s, x, e), Codes(s, e);
            Guidances(r.trace) == Guidances(s.trace) +
                                  Destutter(AuthEngine.UnlockInfos(codes)[..AuthEngine.UnlockShown(codes)])
  {
    assert Codes(s, e) == StatusesOf(s, e);
    AttemptShows(c, s, x, e);
    AuthEngine.UnlockGuidanceIsDestuttered(Codes(s, e), AuthEngine.UnlockShown(Codes(s, e)));
  }
}
