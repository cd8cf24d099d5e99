/**
 Attempts, from what is on record, what the environment answers and nothing else: which one is refused with what, and
 what the others report.
 */
module FaceHalAttempts {
  import opened Wrappers
  import opened Callbacks
  import opened Traces
  import opened FaceHal
  import opened FaceHalReports
  import AuthEngine
  import AuthLoop
  import Camera

  /** The name that a record of the engine in use carries. */
  function NameOf(useTee: bool, authAvailable: bool): string {
    if !authAvailable then "cv" else if useTee then "st_auth_tee" else "st_auth"
  }

  /** The last callback reported. */
  function LastCall(s: State): Option<Callback> {
    if s.trace.Then? then Some(s.trace.last.call) else None
  }

  predicate CameraRuns(e: AuthEnv) {
    e.camera.frontCamera && e.camera.opens && e.camera.reader && e.camera.session && e.camera.repeating
  }

  /** What an attempt that does not get to its frames is told. */
  function Rejection(c: Setup, s: State, x: Session, e: AuthEnv): Option<Callback> {
    var t := TrackerOf(s, x.user);
    if s.record.userId != x.user then Some(OnError(UNABLE_TO_PROCESS))
    else if t.failures >= 20 then Some(LockoutPermanent)
    else if t.lockedUntil > e.checkedAt then Some(LockoutTimed(t.lockedUntil - e.checkedAt))
    else if !e.prepared then Some(OnError(HW_UNAVAILABLE))
    else if s.record.engine != NameOf(c.useTee, c.authAvailable) then Some(OnError(REENROLL_REQUIRED))
    else if !CameraRuns(e) then Some(OnError(HW_UNAVAILABLE))
    else if c.authAvailable && AuthEngine.FaceIdOf(s.faceId).None? then Some(OnError(REENROLL_REQUIRED))
    else if c.authAvailable && !e.configured then Some(OnError(UNABLE_TO_PROCESS))
    else None
  }

  /** The attempt unlocks, is counted as a failure, or reports an error, and the user's tracker says the same. */
  predicate Ends(s: State, r: State, x: Session, e: AuthEnv, verdict: Verdict) {
    match verdict
    case Succeeded =>
      LastCall(r) == Some(AuthenticationSucceeded(s.record.enrollmentId)) && x.user !in r.lockouts
    case Failed =>
      var n := TrackerOf(s, x.user).failures + 1;
      var failure := Event(x, e.failedAt, AuthenticationFailed, r.camera);
      && TrackerOf(r, x.user).failures == n
      && r.trace.Then?
      && if n >= 20 then r.trace.last.call == LockoutPermanent && r.trace.before.Then? && r.trace.before.last == failure
         else if n % 5 == 0
         then && r.trace.last.call == LockoutTimed(30000) && r.trace.before.Then? && r.trace.before.last == failure
              && TrackerOf(r, x.user).lockedUntil == e.lockedAt + 30000
         else r.trace.last == failure
    case Aborted(error) =>
      LastCall(r) == Some(OnError(error)) && TrackerOf(r, x.user) == TrackerOf(s, x.user)
  }

  /** An attempt that is rejected is told so, and nothing of it counts. */
  lemma RejectedAttempt(c: Setup, s: State, x: Session, e: AuthEnv)
    requires Rejection(c, s, x, e).Some?
    ensures var r := Authenticated(c, s, x, e);
            LastCall(r) == Rejection(c, s, x, e) && TrackerOf(r, x.user) == TrackerOf(s, x.user)
  {
  }

  lemma AdmittedTold(c: Setup, s: State, x: Session, e: AuthEnv)
    requires Rejection(c, s, x, e).None?
    ensures Ends(s, Authenticated(c, s, x, e), x, e, AttemptVerdict(c, s, e))
  {
    var s1 := WithTracker(s, x.user);
    assert Attempt(c, s1, e) == Attempt(c, s, e) && AttemptVerdict(c, s1, e) == AttemptVerdict(c, s, e);
    var quiet, during, f := AttemptedTold(c, s1, x, e);
    TrackerAdded(s, Attempted(c, s1, x, e), x, e, AttemptVerdict(c, s, e), f);
    EndsTold(s, Authenticated(c, s, x, e), x, e, AttemptVerdict(c, s, e), quiet, during, f);
  }

  lemma EndsTold(s: State, r: State, x: Session, e: AuthEnv, verdict: Verdict, quiet: Trace<Callback>,
                 during: Camera.Handles, f: Final)
    requires Told(s, r, x, quiet, during, f) && AttemptEnds(s, r, x, e, Some(verdict), f)
    ensures Ends(s, r, x, e, verdict)
  {
  }

  // ----- The in-process engine

  /** The verdict from the frames and the attention flag on record. */
  ghost function FramesVerdict(c: Setup, s: State, e: AuthEnv): Verdict {
    var comparable := c.useTee || s.template.Some?;
    if comparable && AuthLoop.AnyMatching(e.startedAt, e.frames, s.record.requireAttention) then Succeeded
    else if e.cancelled then Aborted(CANCELED)
    else if comparable && AuthLoop.AnyComparable(e.startedAt, e.frames, s.record.requireAttention) then Failed
    else Aborted(TIMEOUT)
  }

  /** An attempt with the in-process engine that is not rejected ends as its frames say. */
  lemma FramesDecide(c: Setup, s: State, x: Session, e: AuthEnv)
    requires !c.authAvailable && Rejection(c, s, x, e).None?
    ensures Ends(s, Authenticated(c, s, x, e), x, e, FramesVerdict(c, s, e))
  {
    AdmittedTold(c, s, x, e);
    AuthLoop.VerdictOfFrames(Attempt(c, s, e), e.frames, e.cancelled);
  }

  predicate EyesShut(face: Option<AuthLoop.Face>) {
    face.Some? ==> !face.value.eyesOpen
  }

  /** Where attention is required and no face ever has open eyes, nothing unlocks and nothing counts as a failure. */
  lemma ClosedEyesNeverCount(c: Setup, s: State, x: Session, e: AuthEnv)
    requires !c.authAvailable && s.record.requireAttention
    requires forall k :: 0 <= k < |e.frames| ==> EyesShut(e.frames[k].small) && EyesShut(e.frames[k].large)
    ensures var r := Authenticated(c, s, x, e);
            && LastCall(r) != Some(AuthenticationSucceeded(s.record.enrollmentId))
            && TrackerOf(r, x.user) == TrackerOf(s, x.user)
  {
    if Rejection(c, s, x, e).Some? { RejectedAttempt(c, s, x, e); } else { FramesDecide(c, s, x, e); }
  }

  function WithEyesOpen(face: Option<AuthLoop.Face>): Option<AuthLoop.Face> {
    if face.None? then None else Some(face.value.(eyesOpen := true))
  }

  function AllEyesOpen(fs: seq<AuthLoop.Frame>): seq<AuthLoop.Frame> {
    seq(|fs|, k requires 0 <= k < |fs| =>
      AuthLoop.Frame(WithEyesOpen(fs[k].small), WithEyesOpen(fs[k].large), fs[k].now))
  }

  lemma {:induction false} EyesOpenSameGaps(start: int, fs: seq<AuthLoop.Frame>, k: nat)
    requires k <= |fs|
    ensures AuthLoop.LastSmall(start, AllEyesOpen(fs), k) == AuthLoop.LastSmall(start, fs, k)
  {
    if k == 0 {
    } else {
      EyesOpenSameGaps(start, fs, k - 1);
    }
  }

  lemma EyesOpenSeen(start: int, fs: seq<AuthLoop.Frame>, k: nat)
    requires k < |fs|
    ensures AuthLoop.Seen(start, AllEyesOpen(fs), k) == WithEyesOpen(AuthLoop.Seen(start, fs, k))
  {
    var open := AllEyesOpen(fs);
    forall j: nat | j < k
      ensures AuthLoop.LastSmall(start, open, j) == AuthLoop.LastSmall(start, fs, j)
    {
      EyesOpenSameGaps(start, fs, j);
    }
    if AuthLoop.GapBefore(start, fs, k) {
      var j: nat :| j < k && fs[j].small.None? && fs[j].now - AuthLoop.LastSmall(start, fs, j) > 500;
      assert open[j].small.None? && open[j].now - AuthLoop.LastSmall(start, open, j) > 500;
    }
  }

  /** Where attention is not required, the verdict is the one all open eyes would have had. */
  lemma EyesIgnored(c: Setup, s: State, x: Session, e: AuthEnv)
    requires !c.authAvailable && !s.record.requireAttention && Rejection(c, s, x, e).None?
    ensures Ends(s, Authenticated(c, s, x, e), x, e, FramesVerdict(c, s, e.(frames := AllEyesOpen(e.frames))))
  {
    FramesDecide(c, s, x, e);
    var fs, open := e.frames, AllEyesOpen(e.frames);
    forall k: nat | k < |fs|
      ensures AuthLoop.Comparable(AuthLoop.Seen(e.startedAt, fs, k), false) ==
              AuthLoop.Comparable(AuthLoop.Seen(e.startedAt, open, k), false)
      ensures AuthLoop.Matching(AuthLoop.Seen(e.startedAt, fs, k), false) ==
              AuthLoop.Matching(AuthLoop.Seen(e.startedAt, open, k), false)
    {
      EyesOpenSeen(e.startedAt, fs, k);
    }
    SameWitnesses(e.startedAt, fs, open);
  }

  lemma SameWitnesses(start: int, fs: seq<AuthLoop.Frame>, gs: seq<AuthLoop.Frame>)
    requires |fs| == |gs|
    requires forall k: nat :: k < |fs| ==> AuthLoop.Comparable(AuthLoop.Seen(start, fs, k), false) ==
                                           AuthLoop.Comparable(AuthLoop.Seen(start, gs, k), false)
    requires forall k: nat :: k < |fs| ==> AuthLoop.Matching(AuthLoop.Seen(start, fs, k), false) ==
                                           AuthLoop.Matching(AuthLoop.Seen(start, gs, k), false)
    ensures AuthLoop.AnyComparable(start, fs, false) == AuthLoop.AnyComparable(start, gs, false)
    ensures AuthLoop.AnyMatching(start, fs, false) == AuthLoop.AnyMatching(start, gs, false)
  {
  }

  // ----- The st_auth engine

  /** The status codes of the frames: the SDK checks the eyes exactly when the record requires attention. */
  function Codes(s: State, e: AuthEnv): seq<int> {
    seq(|e.shots|, k requires 0 <= k < |e.shots| =>
      if s.record.requireAttention then e.shots[k].eyesChecked else e.shots[k].eyesIgnored)
  }

  /** An st_auth attempt that is not rejected ends as the first code that ends it says, or else without one. */
  lemma CodesDecide(c: Setup, s: State, x: Session, e: AuthEnv, k: nat)
    requires c.authAvailable && Rejection(c, s, x, e).None?
    ensures var r, codes := Authenticated(c, s, x, e), Codes(s, e);
            && (AuthEngine.FirstAt(codes, k) ==>
                  Ends(s, r, x, e, if codes[k] == 201 then Succeeded
                                   else if codes[k] == -2 then Aborted(HW_UNAVAILABLE)
                                   else Aborted(REENROLL_REQUIRED)))
            && ((forall j: nat :: j < |codes| ==> !AuthEngine.EndsUnlock(codes[j])) ==>
                  Ends(s, r, x, e, if e.cancelled then Aborted(CANCELED)
                                   else if 202 in codes || 2 in codes then Failed
                                   else Aborted(TIMEOUT)))
  {
    AdmittedTold(c, s, x, e);
    assert Codes(s, e) == StatusesOf(s, e);
    AuthEngine.VerdictOfCodes(Codes(s, e), e.cancelled);
  }
}
