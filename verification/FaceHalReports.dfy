/**
 What every operation reports, and in what order: the quiet callbacks of a frame loop, if it has one, and then one
 final event or two. Whatever the other modules read off traces is proved from this.
 */
module FaceHalReports {
  import opened Wrappers
  import opened Callbacks
  import opened Traces
  import opened EnrollmentRecord
  import opened FaceHal
  import AuthEngine
  import AuthLoop
  import Camera
  import EnrollLoop

  // ----- The callbacks of the frame loops

  predicate QuietCall(call: Callback) {
    call.FirstFrame? || call.Guidance? || (call.EnrollmentProgress? && call.remaining > 0)
  }

  /** What the frame loops report while they run. */
  predicate Quiet(calls: Trace<Callback>) {
    match calls
    case Empty => true
    case Then(before, call) => Quiet(before) && QuietCall(call)
  }

  lemma {:induction false} QuietEnroll(fs: seq<EnrollLoop.Frame>, id: int, k: nat)
    requires k <= |fs|
    ensures Quiet(EnrollLoop.EnrollCalls(fs, id, k))
  {
    if k == 0 {
    } else {
      QuietEnroll(fs, id, k - 1);
    }
  }

  lemma {:induction false} QuietGuide(a: AuthLoop.Attempt, fs: seq<AuthLoop.Frame>, k: nat)
    requires k <= |fs|
    ensures Quiet(AuthLoop.GuideCalls(a, fs, k))
  {
    if k == 0 {
    } else {
      QuietGuide(a, fs, k - 1);
    }
  }

  lemma {:induction false} QuietShown(xs: seq<AuthEngine.Answer>, id: int, k: nat)
    requires k <= |xs|
    ensures Quiet(AuthEngine.ShownCalls(xs, id, k))
  {
    if k == 0 {
    } else {
      QuietShown(xs, id, k - 1);
    }
  }

  lemma {:induction false} QuietUnlock(statuses: seq<int>, k: nat)
    requires k <= |statuses|
    ensures Quiet(AuthEngine.UnlockCalls(statuses, k))
  {
    if k == 0 {
    } else {
      QuietUnlock(statuses, k - 1);
    }
  }

  lemma QuietEnrollAuth(xs: seq<AuthEngine.Answer>, id: int)
    ensures Quiet(AuthEngine.EnrollCalls(xs, id))
  {
    QuietShown(xs, id, AuthEngine.Shown(xs));
    assert Quiet(Trace<Callback>.Empty);
  }

  // ----- How an operation ends

  datatype Final = One(last: Event) | Two(first: Event, second: Event)

  function Closed(trace: Trace<Event>, f: Final): Trace<Event> {
    match f
    case One(last) => Then(trace, last)
    case Two(first, second) => Then(Then(trace, first), second)
  }

  /** From s to r the session reports quiet callbacks, with `during` held, and then f. */
  predicate Told(s: State, r: State, x: Session, quiet: Trace<Callback>, during: Camera.Handles, f: Final) {
    Quiet(quiet) && r.trace == Closed(Extended(s.trace, x, s.clock, quiet, during), f)
  }

  /** The handles an operation leaves, unless it starts the camera: those it found. */
  function HeldAfter(c: Setup, s: State, x: Session, op: Operation): Camera.Handles {
    match op
    case Enroll(challenge, preview, e) =>
      if EnrollRefusal(s, x, challenge, e).Some? then s.camera else Camera.Used(s.camera, preview, e.camera)
    case Authenticate(e) =>
      if s.record.userId != x.user || AttemptRefusal(c, s, TrackerOf(s, x.user), e).Some? then s.camera
      else Camera.Used(s.camera, false, e.camera)
    case _ => s.camera
  }

  // ----- Enrolment

  /** The answers with which an enrolment that starts the camera succeeds. */
  predicate EnrolSucceeds(c: Setup, e: EnrollEnv) {
    && Camera.StartSucceeds(e.camera) && e.saving.Saved?
    && if c.authAvailable then e.configured && AuthEngine.EnrollOutcome(e.answers).Done?
       else e.storing.Stored? && exists k: nat :: k < |e.frames| && EnrollLoop.Captures(e.frames, k)
  }

  /** An enrolment that is neither refused nor let down by any answer. */
  predicate EnrolGranted(c: Setup, s: State, x: Session, challenge: int, e: EnrollEnv) {
    challenge in Challenges(s, x.id) && s.record.userId < 0 && e.prepared && EnrolSucceeds(c, e)
  }

  /** It reports its end and writes the record, or reports an error and leaves no new record. */
  predicate EnrolEnds(c: Setup, s: State, x: Session, e: EnrollEnv, r: State, success: bool, f: Final) {
    && r.lockouts == s.lockouts && r.challenges == s.challenges
    && if success
       then && r.record == NewRecord(s.record, x.user, e, EngineName(c))
            && f == Two(Event(x, s.clock, EnrollmentFinished, r.camera),
                        Event(x, s.clock, EnrollmentProgress(e.enrollmentId, 0), r.camera))
       else && (r.record == s.record || r.record == NO_ENROLLMENT)
            && f.One? && f.last.call.OnError? && f.last == Event(x, s.clock, f.last.call, r.camera)
  }

  /** The last one or two events of a trace. */
  function LastOf(r: State, two: bool): Final
    requires r.trace.Then? && (two ==> r.trace.before.Then?)
  {
    if two then Two(r.trace.before.last, r.trace.last) else One(r.trace.last)
  }

  /** The callbacks of an enrolment's frame loop. */
  function EnrolFrameCalls(c: Setup, e: EnrollEnv): Trace<Callback> {
    if !c.authAvailable then EnrollLoop.EnrollCalls(e.frames, e.enrollmentId, EnrollLoop.Consumed(e.frames))
    else if e.configured then AuthEngine.EnrollCalls(e.answers, e.enrollmentId)
    else Trace.Empty
  }

  lemma EnrolledCvTold(c: Setup, s: State, x: Session, e: EnrollEnv) returns (quiet: Trace<Callback>, f: Final)
    requires !c.authAvailable
    ensures var r := EnrolledCv(c, s, x, e);
            && quiet == EnrolFrameCalls(c, e)
            && Told(s, r, x, quiet, s.camera, f) && r.camera == Camera.Stopped(s.camera)
            && EnrolEnds(c, s, x, e, r, EnrollLoop.Captured(e.frames) != [] && e.storing.Stored? && e.saving.Saved?, f)
  {
    quiet := EnrollLoop.EnrollCalls(e.frames, e.enrollmentId, EnrollLoop.Consumed(e.frames));
    QuietEnroll(e.frames, e.enrollmentId, EnrollLoop.Consumed(e.frames));
    f := LastOf(EnrolledCv(c, s, x, e), EnrollLoop.Captured(e.frames) != [] && e.storing.Stored? && e.saving.Saved?);
  }

  lemma EnrollConcludedTold(c: Setup, s: State, x: Session, e: EnrollEnv, outcome: AuthEngine.Ending, faceId: int)
    returns (f: Final)
    ensures var r := EnrollConcluded(c, s, x, e, outcome, faceId);
            && r.trace == Closed(s.trace, f) && r.camera == s.camera
            && EnrolEnds(c, s, x, e, r, outcome.Done? && e.saving.Saved?, f)
  {
    f := LastOf(EnrollConcluded(c, s, x, e, outcome, faceId), outcome.Done? && e.saving.Saved?);
  }

  lemma EnrolledAuthTold(c: Setup, s: State, x: Session, e: EnrollEnv) returns (quiet: Trace<Callback>, f: Final)
    requires c.authAvailable
    ensures var r := EnrolledAuth(c, s, x, e);
            && quiet == EnrolFrameCalls(c, e)
            && Told(s, r, x, quiet, s.camera, f) && r.camera == Camera.Stopped(s.camera)
            && EnrolEnds(c, s, x, e, r, e.configured && AuthEngine.EnrollOutcome(e.answers).Done? && e.saving.Saved?, f)
  {
    if e.configured {
      quiet := AuthEngine.EnrollCalls(e.answers, e.enrollmentId);
      QuietEnrollAuth(e.answers, e.enrollmentId);
      var s1 := s.(faceId := None, template := e.sdkLeftover);
      f := EnrollConcludedTold(c, CameraStopped(EmitAll(s1, x, quiet)), x, e, AuthEngine.EnrollOutcome(e.answers),
                               AuthEngine.EnrolledFaceId(e.answers));
    } else {
      quiet := Trace.Empty;
      f := LastOf(EnrolledAuth(c, s, x, e), false);
    }
  }

  lemma EnrolledTold(c: Setup, s: State, x: Session, challenge: int, preview: bool, e: EnrollEnv)
    returns (quiet: Trace<Callback>, during: Camera.Handles, f: Final)
    ensures var r := Enrolled(c, s, x, challenge, preview, e);
            && Told(s, r, x, quiet, during, f) && r.camera == HeldAfter(c, s, x, Enroll(challenge, preview, e))
            && quiet == (if EnrollRefusal(s, x, challenge, e).None? && Camera.StartSucceeds(e.camera)
                         then EnrolFrameCalls(c, e) else Trace.Empty)
            && EnrolEnds(c, s, x, e, r, EnrolGranted(c, s, x, challenge, e), f)
            && (EnrollRefusal(s, x, challenge, e).Some? ==> SameData(s, r))
  {
    if EnrollRefusal(s, x, challenge, e).Some? || !Camera.StartSucceeds(e.camera) {
      quiet, during, f := Trace.Empty, s.camera, LastOf(Enrolled(c, s, x, challenge, preview, e), false);
    } else {
      EnrollLoop.CaptureNeedsFiveGoodFrames(e.frames);
      var s1 := s.(camera := Camera.Started(s.camera, preview, e.camera));
      during := s1.camera;
      if c.authAvailable {
        quiet, f := EnrolledAuthTold(c, s1, x, e);
      } else {
        quiet, f := EnrolledCvTold(c, s1, x, e);
      }
    }
  }

  // ----- Attempts

  /** The part of the state an attempt leaves alone. */
  predicate SameData(s: State, r: State) {
    r.record == s.record && r.enrolled == s.enrolled && r.template == s.template && r.faceId == s.faceId &&
    r.challenges == s.challenges
  }

  /** The answers with which an attempt that starts the camera unlocks. */
  predicate UnlockSucceeds(c: Setup, s: State, e: AuthEnv) {
    && Camera.StartSucceeds(e.camera)
    && if c.authAvailable
       then AuthEngine.FaceIdOf(s.faceId).Some? && e.configured && AuthEngine.UnlockOutcome(StatusesOf(s, e)).Done?
       else exists k: nat :: k < |e.frames| && AuthLoop.Accepts(Attempt(c, s, e), e.frames, k)
  }

  /** An attempt that is neither refused nor let down by any answer. */
  predicate UnlockGranted(c: Setup, s: State, x: Session, e: AuthEnv) {
    && s.record.userId == x.user && !LockedOut(TrackerOf(s, x.user), e.checkedAt)
    && e.prepared && s.record.engine == EngineName(c) && UnlockSucceeds(c, s, e)
  }

  /** Some delivered frame is compared with the template, once the camera runs. */
  predicate ComparesFrame(c: Setup, s: State, e: AuthEnv) {
    if c.authAvailable
    then AuthEngine.FaceIdOf(s.faceId).Some? && e.configured && AuthEngine.AnyCompares(StatusesOf(s, e), |e.shots|)
    else AuthLoop.AnyScored(Attempt(c, s, e), e.frames, |e.frames|)
  }

  /** Some delivered frame of the attempt is compared with the template. */
  predicate Compares(c: Setup, s: State, x: Session, e: AuthEnv) {
    && s.record.userId == x.user && AttemptRefusal(c, s, TrackerOf(s, x.user), e).None?
    && Camera.StartSucceeds(e.camera) && ComparesFrame(c, s, e)
  }

  predicate SameTrackers(s: State, r: State, user: int) {
    r.lockouts == s.lockouts || r.lockouts == WithTracker(s, user).lockouts
  }

  /** What an attempt with this verdict reports and does to the lockouts; no verdict means a lockout was reported. */
  predicate AttemptEnds(s: State, r: State, x: Session, e: AuthEnv, verdict: Option<Verdict>, f: Final) {
    match verdict
    case None =>
      && SameTrackers(s, r, x.user) && f.One? && (f.last.call.LockoutTimed? || f.last.call.LockoutPermanent?)
      && f.last == Event(x, s.clock, f.last.call, r.camera)
    case Some(Succeeded) =>
      && r.lockouts == s.lockouts - {x.user}
      && f == One(Event(x, s.clock, AuthenticationSucceeded(s.record.enrollmentId), r.camera))
    case Some(Failed) =>
      var t := FailedTracker(TrackerOf(s, x.user), e.lockedAt);
      var failed := Event(x, e.failedAt, AuthenticationFailed, r.camera);
      && r.lockouts == s.lockouts[x.user := t]
      && f == if t.failures >= LOCKOUT_PERMANENT_FAILURES
              then Two(failed, Event(x, s.clock, LockoutPermanent, r.camera))
              else if t.failures % LOCKOUT_TIMED_FAILURES == 0
              then Two(failed, Event(x, s.clock, LockoutTimed(LOCKOUT_DURATION), r.camera))
              else One(failed)
    case Some(Aborted(error)) =>
      SameTrackers(s, r, x.user) && f == One(Event(x, s.clock, OnError(error), r.camera))
  }

  predicate Judged(verdict: Option<Verdict>) {
    verdict == Some(Succeeded) || verdict == Some(Failed)
  }

  lemma ConcludedTold(s: State, x: Session, verdict: Verdict, e: AuthEnv) returns (f: Final)
    ensures var r := Concluded(s, x, verdict, e);
            && r.trace == Closed(s.trace, f) && r.camera == s.camera && SameData(s, r)
            && AttemptEnds(s, r, x, e, Some(verdict), f)
  {
    var n := FailedTracker(TrackerOf(s, x.user), e.lockedAt).failures;
    f := LastOf(Concluded(s, x, verdict, e),
                verdict.Failed? && (n >= LOCKOUT_PERMANENT_FAILURES || n % LOCKOUT_TIMED_FAILURES == 0));
  }

  /** The callbacks of an attempt's frame loop. */
  function AttemptFrameCalls(c: Setup, s: State, e: AuthEnv): Trace<Callback> {
    if !c.authAvailable then
      AuthLoop.GuideCalls(Attempt(c, s, e), e.frames, AuthLoop.Consumed(Attempt(c, s, e), e.frames))
    else if AuthEngine.FaceIdOf(s.faceId).Some? && e.configured then
      AuthEngine.UnlockCalls(StatusesOf(s, e), AuthEngine.UnlockShown(StatusesOf(s, e)))
    else Trace.Empty
  }

  lemma AuthenticatedCvTold(c: Setup, s: State, x: Session, e: AuthEnv) returns (quiet: Trace<Callback>, f: Final)
    requires !c.authAvailable
    ensures var r := AuthenticatedCv(c, s, x, e);
            && quiet == AttemptFrameCalls(c, s, e)
            && Told(s, r, x, quiet, s.camera, f) && r.camera == Camera.Stopped(s.camera) && SameData(s, r)
            && AttemptEnds(s, r, x, e, Some(AuthLoop.Decide(Attempt(c, s, e), e.frames, e.cancelled)), f)
  {
    var a := Attempt(c, s, e);
    quiet := AuthLoop.GuideCalls(a, e.frames, AuthLoop.Consumed(a, e.frames));
    QuietGuide(a, e.frames, AuthLoop.Consumed(a, e.frames));
    f := ConcludedTold(CameraStopped(EmitAll(s, x, quiet)), x, AuthLoop.Decide(a, e.frames, e.cancelled), e);
  }

  /** How an st_auth attempt that starts the camera is decided. */
  function AuthVerdict(s: State, e: AuthEnv): Verdict {
    if AuthEngine.FaceIdOf(s.faceId).None? then Aborted(REENROLL_REQUIRED)
    else if !e.configured then Aborted(UNABLE_TO_PROCESS)
    else AuthEngine.Decide(StatusesOf(s, e), e.cancelled)
  }

  lemma AuthenticatedAuthTold(c: Setup, s: State, x: Session, e: AuthEnv) returns (quiet: Trace<Callback>, f: Final)
    requires c.authAvailable
    ensures var r := AuthenticatedAuth(s, x, e);
            && quiet == AttemptFrameCalls(c, s, e)
            && Told(s, r, x, quiet, s.camera, f) && r.camera == Camera.Stopped(s.camera) && SameData(s, r)
            && AttemptEnds(s, r, x, e, Some(AuthVerdict(s, e)), f)
  {
    if AuthEngine.FaceIdOf(s.faceId).None? || !e.configured {
      quiet, f := Trace.Empty, LastOf(AuthenticatedAuth(s, x, e), false);
    } else {
      var statuses := StatusesOf(s, e);
      quiet := AuthEngine.UnlockCalls(statuses, AuthEngine.UnlockShown(statuses));
      QuietUnlock(statuses, AuthEngine.UnlockShown(statuses));
      f := ConcludedTold(CameraStopped(EmitAll(s, x, quiet)), x, AuthEngine.Decide(statuses, e.cancelled), e);
    }
  }

  /** How an attempt that is not refused is decided. */
  function AttemptVerdict(c: Setup, s: State, e: AuthEnv): Verdict {
    if !Camera.StartSucceeds(e.camera) then Aborted(HW_UNAVAILABLE)
    else if c.authAvailable then AuthVerdict(s, e)
    else AuthLoop.Decide(Attempt(c, s, e), e.frames, e.cancelled)
  }

  lemma AttemptedTold(c: Setup, s: State, x: Session, e: AuthEnv)
    returns (quiet: Trace<Callback>, during: Camera.Handles, f: Final)
    ensures var r := Attempted(c, s, x, e);
            && quiet == (if Camera.StartSucceeds(e.camera) then AttemptFrameCalls(c, s, e) else Trace.Empty)
            && Told(s, r, x, quiet, during, f) && r.camera == Camera.Used(s.camera, false, e.camera) && SameData(s, r)
            && AttemptEnds(s, r, x, e, Some(AttemptVerdict(c, s, e)), f)
  {
    var s1 := s.(camera := Camera.Started(s.camera, false, e.camera));
    during := s1.camera;
    assert Attempt(c, s1, e) == Attempt(c, s, e) && AttemptFrameCalls(c, s1, e) == AttemptFrameCalls(c, s, e);
    if !Camera.StartSucceeds(e.camera) {
      quiet, f := Trace.Empty, LastOf(Attempted(c, s, x, e), false);
    } else if c.authAvailable {
      quiet, f := AuthenticatedAuthTold(c, s1, x, e);
    } else {
      quiet, f := AuthenticatedCvTold(c, s1, x, e);
    }
  }

  /** Only a granted attempt unlocks, and only one that compares is judged at all. */
  lemma VerdictGranted(c: Setup, s: State, e: AuthEnv)
    ensures AttemptVerdict(c, s, e) == Succeeded <==> UnlockSucceeds(c, s, e)
    ensures Judged(Some(AttemptVerdict(c, s, e))) ==> Camera.StartSucceeds(e.camera) && ComparesFrame(c, s, e)
  {
    if c.authAvailable {
      var statuses := StatusesOf(s, e);
      AuthEngine.AnyComparesIsExists(statuses, |statuses|);
    } else {
      var a := Attempt(c, s, e);
      AuthLoop.VerdictMeaning(a, e.frames, e.cancelled);
      AuthLoop.AnyScoredIsExists(a, e.frames, |e.frames|);
    }
  }

  lemma RefusedTold(c: Setup, s: State, x: Session, e: AuthEnv) returns (verdict: Option<Verdict>, f: Final)
    requires s.record.userId != x.user || AttemptRefusal(c, s, TrackerOf(s, x.user), e).Some?
    ensures var r := Authenticated(c, s, x, e);
            && r.trace == Closed(s.trace, f) && r.camera == s.camera && SameData(s, r)
            && AttemptEnds(s, r, x, e, verdict, f) && !Judged(verdict)
  {
    f := LastOf(Authenticated(c, s, x, e), false);
    verdict := if f.last.call.OnError? then Some(Aborted(f.last.call.error)) else None;
  }

  /** Starting from a state that only has one more tracker entry makes no difference. */
  lemma TrackerAdded(s: State, r: State, x: Session, e: AuthEnv, verdict: Verdict, f: Final)
    requires AttemptEnds(WithTracker(s, x.user), r, x, e, Some(verdict), f)
    ensures AttemptEnds(s, r, x, e, Some(verdict), f)
  {
    assert WithTracker(s, x.user).lockouts - {x.user} == s.lockouts - {x.user};
  }

  lemma AuthenticatedTold(c: Setup, s: State, x: Session, e: AuthEnv)
    returns (quiet: Trace<Callback>, during: Camera.Handles, verdict: Option<Verdict>, f: Final)
    ensures var r := Authenticated(c, s, x, e);
            && Told(s, r, x, quiet, during, f) && r.camera == HeldAfter(c, s, x, Authenticate(e)) && SameData(s, r)
            && AttemptEnds(s, r, x, e, verdict, f)
            && (verdict == Some(Succeeded) <==> UnlockGranted(c, s, x, e))
            && (Judged(verdict) ==> Compares(c, s, x, e))
  {
    if s.record.userId != x.user || AttemptRefusal(c, s, TrackerOf(s, x.user), e).Some? {
      quiet, during := Trace.Empty, s.camera;
      verdict, f := RefusedTold(c, s, x, e);
    } else {
      var s1 := WithTracker(s, x.user);
      quiet, during, f := AttemptedTold(c, s1, x, e);
      verdict := Some(AttemptVerdict(c, s1, e));
      assert Attempt(c, s1, e) == Attempt(c, s, e) && AttemptVerdict(c, s1, e) == AttemptVerdict(c, s, e);
      TrackerAdded(s, Attempted(c, s1, x, e), x, e, verdict.value, f);
      VerdictGranted(c, s, e);
    }
  }

  // ----- All other operations

  /** The single callback of an operation that is neither an enrolment nor an attempt. */
  function OtherCall(s: State, x: Session, op: Operation): Callback
    requires !op.Enroll? && !op.Authenticate?
  {
    var owner := s.record.userId == x.user;
    match op
    case GenerateChallenge(challenge) => ChallengeGenerated(challenge)
    case RevokeChallenge(challenge) => ChallengeRevoked(challenge)
    case DetectInteraction => OnError(UNABLE_TO_PROCESS)
    case EnumerateEnrollments => EnrollmentsEnumerated(if owner then [s.record.enrollmentId] else [])
    case RemoveEnrollments(ids, m, _) =>
      if owner && s.record.enrollmentId in ids && !m.reported then OnError(UNABLE_TO_REMOVE)
      else EnrollmentsRemoved(ids)
    case GetFeatures => if owner then FeaturesRetrieved(s.record.requireAttention) else OnError(UNABLE_TO_PROCESS)
    case SetFeature(isAttention, _, saving) =>
      if owner && isAttention && saving.Saved? then FeatureSet else OnError(UNABLE_TO_PROCESS)
    case GetAuthenticatorId => AuthenticatorIdRetrieved(if owner then s.record.authenticatorId else 0)
    case InvalidateAuthenticatorId(newId, _) => AuthenticatorIdInvalidated(if owner then newId else 0)
    case ResetLockout => LockoutCleared
  }

  /** One callback and no change to the lockouts, the challenges or the camera. */
  predicate OnlyReports(s: State, r: State, x: Session, call: Callback) {
    && r.lockouts == s.lockouts && r.challenges == s.challenges && r.camera == s.camera
    && r.trace == Then(s.trace, Event(x, s.clock, call, s.camera))
  }

  lemma RemovalReports(c: Setup, s: State, x: Session, ids: seq<int>, m: Removal, unlinked: bool)
    ensures OnlyReports(s, EnrollmentsRemovedBy(c, s, x, ids, m, unlinked), x,
                        OtherCall(s, x, RemoveEnrollments(ids, m, unlinked)))
  {
  }

  lemma FeatureSetReports(s: State, x: Session, isAttention: bool, enabled: bool, saving: Saving)
    ensures OnlyReports(s, FeatureSetTo(s, x, isAttention, enabled, saving), x,
                        OtherCall(s, x, SetFeature(isAttention, enabled, saving)))
  {
  }

  lemma InvalidationReports(s: State, x: Session, newId: int, saving: Saving)
    ensures OnlyReports(s, Invalidated(s, x, newId, saving), x,
                        OtherCall(s, x, InvalidateAuthenticatorId(newId, saving)))
  {
  }

  /** Only challenges and lockout resets do more than report to what the sessions share in memory. */
  lemma OtherReports(c: Setup, s: State, x: Session, op: Operation)
    requires !op.Enroll? && !op.Authenticate?
    requires !op.GenerateChallenge? && !op.RevokeChallenge? && !op.ResetLockout?
    ensures OnlyReports(s, Perform(c, s, x, op), x, OtherCall(s, x, op))
  {
    match op {
      case RemoveEnrollments(ids, m, unlinked) => RemovalReports(c, s, x, ids, m, unlinked);
      case SetFeature(isAttention, enabled, saving) => FeatureSetReports(s, x, isAttention, enabled, saving);
      case InvalidateAuthenticatorId(newId, saving) => InvalidationReports(s, x, newId, saving);
      case _ =>
    }
  }

  lemma OtherTrace(c: Setup, s: State, x: Session, op: Operation)
    requires !op.Enroll? && !op.Authenticate?
    ensures var r := Perform(c, s, x, op);
            r.camera == s.camera && r.trace == Then(s.trace, Event(x, s.clock, OtherCall(s, x, op), s.camera))
  {
    if !op.GenerateChallenge? && !op.RevokeChallenge? && !op.ResetLockout? { OtherReports(c, s, x, op); }
  }
}
