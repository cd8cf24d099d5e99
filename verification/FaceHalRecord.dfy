/**
 What enrolments write and report, field by field and error by error, and what the record holds over whole runs, told
 from the operations alone.
 */
module FaceHalRecord {
  import opened Wrappers
  import opened Callbacks
  import opened Traces
  import opened EnrollmentRecord
  import opened FaceHal
  import opened FaceHalAttempts
  import opened FaceHalReports
  import AuthEngine
  import Camera
  import Decimal
  import EnrollLoop

  // ----- One enrolment

  predicate EnrolCameraRuns(e: EnrollEnv) {
    e.camera.frontCamera && e.camera.opens && e.camera.reader && e.camera.session && e.camera.repeating
  }

  ghost predicate AnyCapture(fs: seq<EnrollLoop.Frame>) {
    exists k: nat :: k < |fs| && EnrollLoop.Captures(fs, k)
  }

  /** The last callback of an enrolment: which refusal and which failure gives which error. */
  ghost function EnrolAnswer(c: Setup, s: State, x: Session, challenge: int, e: EnrollEnv): Callback {
    var gaveUp := OnError(if e.cancelled then CANCELED else TIMEOUT);
    var stored := if e.saving.Saved? then EnrollmentProgress(e.enrollmentId, 0) else OnError(UNABLE_TO_PROCESS);
    if !(x.id in s.challenges && challenge in s.challenges[x.id]) then OnError(UNABLE_TO_PROCESS)
    else if s.record.userId >= 0 then OnError(NO_SPACE)
    else if !e.prepared || !EnrolCameraRuns(e) then OnError(HW_UNAVAILABLE)
    else if c.authAvailable then
      if !e.configured then OnError(UNABLE_TO_PROCESS)
      else
        match AuthEngine.EnrollOutcome(e.answers)
        case Goes => gaveUp
        case Fails(error) => OnError(error)
        case Done => stored
    else if !AnyCapture(e.frames) then gaveUp
    else if e.storing.NotStored? then OnError(UNABLE_TO_PROCESS)
    else stored
  }

  lemma EnrolledCvAnswers(c: Setup, s: State, x: Session, e: EnrollEnv)
    ensures LastCall(EnrolledCv(c, s, x, e)) ==
            Some(if EnrollLoop.Captured(e.frames) == [] then OnError(if e.cancelled then CANCELED else TIMEOUT)
                 else if e.storing.NotStored? || !e.saving.Saved? then OnError(UNABLE_TO_PROCESS)
                 else EnrollmentProgress(e.enrollmentId, 0))
  {
  }

  lemma EnrolledAuthAnswers(c: Setup, s: State, x: Session, e: EnrollEnv)
    ensures LastCall(EnrolledAuth(c, s, x, e)) ==
            Some(if !e.configured then OnError(UNABLE_TO_PROCESS)
                 else match AuthEngine.EnrollOutcome(e.answers)
                      case Goes => OnError(if e.cancelled then CANCELED else TIMEOUT)
                      case Fails(error) => OnError(error)
                      case Done => if e.saving.Saved? then EnrollmentProgress(e.enrollmentId, 0)
                                   else OnError(UNABLE_TO_PROCESS))
  {
  }

  lemma EnrolmentAnswers(c: Setup, s: State, x: Session, challenge: int, preview: bool, e: EnrollEnv)
    ensures LastCall(Enrolled(c, s, x, challenge, preview, e)) == Some(EnrolAnswer(c, s, x, challenge, e))
  {
    EnrollLoop.CaptureNeedsFiveGoodFrames(e.frames);
    var s1 := s.(camera := Camera.Started(s.camera, preview, e.camera));
    if c.authAvailable { EnrolledAuthAnswers(c, s1, x, e); } else { EnrolledCvAnswers(c, s1, x, e); }
  }

  /** The enrolment of one session, as it is written. */
  function Written(c: Setup, x: Session, e: EnrollEnv, attention: bool): Enrollment {
    Enrollment(x.user, e.enrollmentId, e.authenticatorId, attention, NameOf(c.useTee, c.authAvailable))
  }

  /** The feature is that of a frame that ends five good frames of one face, the first of the frames that captures. */
  ghost predicate FromFrames(feature: seq<int>, fs: seq<EnrollLoop.Frame>) {
    exists n: nat ::
      && 5 <= n <= |fs| && EnrollLoop.Streak(fs, n, 5) && feature == fs[n - 1].feature != []
      && EnrollLoop.Captures(fs, n - 1) && forall j: nat :: j + 1 < n ==> !EnrollLoop.Captures(fs, j)
  }

  lemma CapturedFromFrames(fs: seq<EnrollLoop.Frame>)
    requires EnrollLoop.Captured(fs) != []
    ensures FromFrames(EnrollLoop.Captured(fs), fs)
  {
    EnrollLoop.CaptureNeedsFiveGoodFrames(fs);
  }

  lemma EnrolledCvWrites(c: Setup, s: State, x: Session, e: EnrollEnv)
    requires !c.authAvailable && EnrollLoop.Captured(e.frames) != [] && e.storing.Stored? && e.saving.Saved?
    ensures var r := EnrolledCv(c, s, x, e);
            && r.record == Written(c, x, e, s.record.requireAttention)
            && r.template == Some(Template(EnrollLoop.Captured(e.frames), x.user)) && r.faceId == s.faceId
  {
  }

  lemma EnrolledAuthWrites(c: Setup, s: State, x: Session, e: EnrollEnv)
    requires c.authAvailable && e.configured && AuthEngine.EnrollOutcome(e.answers).Done? && e.saving.Saved?
    ensures var r := EnrolledAuth(c, s, x, e);
            && r.record == Written(c, x, e, s.record.requireAttention)
            && r.template == Some(Template(e.sdkFeature, x.user))
            && r.faceId == Some(Decimal.Print(AuthEngine.EnrolledFaceId(e.answers)))
  {
  }

  /**
   An enrolment that reports its end has written the user, the two new ids, the attention flag of the record it loaded
   and the name of the engine, and has stored the template and face id that this engine took from its frames.
   */
  lemma EnrolmentWrites(c: Setup, s: State, x: Session, challenge: int, preview: bool, e: EnrollEnv)
    requires EnrolAnswer(c, s, x, challenge, e).EnrollmentProgress?
    ensures var r := Enrolled(c, s, x, challenge, preview, e);
            && r.record == Enrollment(x.user, e.enrollmentId, e.authenticatorId, s.record.requireAttention,
                                      if !c.authAvailable then "cv" else if c.useTee then "st_auth_tee" else "st_auth")
            && (if c.authAvailable
                then && r.template == Some(Template(e.sdkFeature, x.user))
                     && r.faceId == Some(Decimal.Print(AuthEngine.EnrolledFaceId(e.answers)))
                else && r.template.Some? && r.template.value.owner == x.user
                     && FromFrames(r.template.value.feature, e.frames) && r.faceId == s.faceId)
  {
    EnrollLoop.CaptureNeedsFiveGoodFrames(e.frames);
    var s1 := s.(camera := Camera.Started(s.camera, preview, e.camera));
    if c.authAvailable {
      EnrolledAuthWrites(c, s1, x, e);
    } else {
      EnrolledCvWrites(c, s1, x, e);
      CapturedFromFrames(e.frames);
    }
  }

  // ----- The record over a run

  /** The last report is that of a finished enrolment. */
  predicate Finished(s: State) {
    s.trace.Then? && s.trace.last.call.EnrollmentProgress? && s.trace.last.call.remaining == 0
  }

  /** What a write leaves of an old record. */
  function Rewritten(before: Enrollment, written: Enrollment, saving: Saving): Enrollment {
    match saving
    case Saved => written
    case Lost => Enrollment(-1, 0, 0, true, "")
    case Untouched => before
  }

  /** An operation's effect on the record, from what was asked, what the environment answered and what was reported. */
  function After(c: Setup, k: Enrollment, step: Step, finished: bool): Enrollment {
    var x := step.session;
    match step.op
    case Enroll(_, _, e) => if finished then Written(c, x, e, k.requireAttention) else k
    case SetFeature(isAttention, enabled, saving) =>
      if k.userId == x.user && isAttention
      then Rewritten(k, Enrollment(k.userId, k.enrollmentId, k.authenticatorId, enabled, k.engine), saving)
      else k
    case InvalidateAuthenticatorId(newId, saving) =>
      if k.userId == x.user
      then Rewritten(k, Enrollment(k.userId, k.enrollmentId, newId, k.requireAttention, k.engine), saving)
      else k
    case RemoveEnrollments(ids, m, unlinked) =>
      if k.userId == x.user && k.enrollmentId in ids && m.reported && unlinked then Enrollment(-1, 0, 0, true, "")
      else k
    case _ => k
  }

  /** The record that a run's operations and reports tell of. */
  function OnRecord(c: Setup, start: State, run: Trace<Step>): Enrollment {
    match run
    case Empty => start.record
    case Then(before, step) => After(c, OnRecord(c, start, before), step, Finished(Run(c, start, run)))
  }

  /** As any file that the source has ever written loads: with a user, or as no record at all. */
  predicate Plain(e: Enrollment) {
    e.userId >= 0 || e == Enrollment(-1, 0, 0, true, "")
  }

  lemma EnrolStep(c: Setup, s: State, step: Step)
    requires step.op.Enroll? && Plain(s.record)
    ensures Next(c, s, step).record == After(c, s.record, step, Finished(Next(c, s, step)))
  {
    var Enroll(challenge, preview, e) := step.op;
    EnrolmentAnswers(c, s, step.session, challenge, preview, e);
    if EnrolAnswer(c, s, step.session, challenge, e).EnrollmentProgress? {
      EnrolmentWrites(c, s, step.session, challenge, preview, e);
    } else {
      var quiet, during, f := EnrolledTold(c, s, step.session, challenge, preview, e);
    }
  }

  lemma RemovalStep(c: Setup, s: State, step: Step, finished: bool)
    requires step.op.RemoveEnrollments?
    ensures Next(c, s, step).record == After(c, s.record, step, finished)
  {
  }

  lemma RewriteStep(c: Setup, s: State, step: Step, finished: bool)
    requires step.op.SetFeature? || step.op.InvalidateAuthenticatorId?
    ensures Next(c, s, step).record == After(c, s.record, step, finished)
  {
  }

  lemma RecordStep(c: Setup, s: State, step: Step)
    requires Plain(s.record)
    ensures Next(c, s, step).record == After(c, s.record, step, Finished(Next(c, s, step)))
  {
    match step.op {
      case Enroll(challenge, preview, e) => EnrolStep(c, s, step);
      case Authenticate(e) =>
        var quiet, during, verdict, f := AuthenticatedTold(c, s, step.session, e);
      case RemoveEnrollments(ids, m, unlinked) => RemovalStep(c, s, step, Finished(Next(c, s, step)));
      case SetFeature(isAttention, enabled, saving) => RewriteStep(c, s, step, Finished(Next(c, s, step)));
      case InvalidateAuthenticatorId(newId, saving) => RewriteStep(c, s, step, Finished(Next(c, s, step)));
      case _ =>
    }
  }

  /** Over every run, the record is exactly what its operations and reports tell of. */
  lemma {:induction false} RecordOverRuns(c: Setup, start: State, run: Trace<Step>)
    requires Plain(start.record) && LegalRun(c, start, run)
    ensures Run(c, start, run).record == OnRecord(c, start, run) && Plain(OnRecord(c, start, run))
  {
    if run.Empty? {
    } else {
      RecordOverRuns(c, start, run.before);
      RecordStep(c, Run(c, start, run.before), run.last);
    }
  }

  lemma RetrievedNow(c: Setup, s: State, x: Session)
    requires Plain(s.record)
    ensures LastCall(Perform(c, s, x, GetAuthenticatorId)) ==
            Some(AuthenticatorIdRetrieved(if s.record.userId == x.user then s.record.authenticatorId else 0))
    ensures LastCall(Perform(c, s, x, GetFeatures)) ==
            Some(if s.record.userId == x.user then FeaturesRetrieved(s.record.requireAttention)
                 else OnError(UNABLE_TO_PROCESS))
  {
  }

  lemma EnumeratedNow(c: Setup, s: State, x: Session)
    requires Plain(s.record)
    ensures LastCall(Perform(c, s, x, EnumerateEnrollments)) ==
            Some(EnrollmentsEnumerated(if s.record.userId == x.user then [s.record.enrollmentId] else []))
  {
  }

  /**
   After any run, a user is told exactly what the operations and reports so far tell of: the enrolment, the attention
   flag and the authenticator id that were last written, if they are the user's.
   */
  lemma RetrievedOverRuns(c: Setup, start: State, run: Trace<Step>, x: Session)
    requires Plain(start.record) && LegalRun(c, start, run)
    ensures var s, k := Run(c, start, run), OnRecord(c, start, run);
            && LastCall(Perform(c, s, x, GetAuthenticatorId)) ==
               Some(AuthenticatorIdRetrieved(if k.userId == x.user then k.authenticatorId else 0))
            && LastCall(Perform(c, s, x, GetFeatures)) ==
               Some(if k.userId == x.user then FeaturesRetrieved(k.requireAttention) else OnError(UNABLE_TO_PROCESS))
            && LastCall(Perform(c, s, x, EnumerateEnrollments)) ==
               Some(EnrollmentsEnumerated(if k.userId == x.user then [k.enrollmentId] else []))
  {
    RecordOverRuns(c, start, run);
    RetrievedNow(c, Run(c, start, run), x);
    EnumeratedNow(c, Run(c, start, run), x);
  }

  /** What a saved setFeature sets is what getFeatures returns and what the next attempt goes by. */
  lemma FeatureSetHolds(c: Setup, start: State, run: Trace<Step>, step: Step, enabled: bool)
    requires Plain(start.record) && LegalRun(c, start, Then(run, step))
    requires step.op == SetFeature(true, enabled, Saved) && OnRecord(c, start, run).userId == step.session.user
    ensures var s := Run(c, start, Then(run, step));
            && LastCall(s) == Some(FeatureSet)
            && LastCall(Perform(c, s, step.session, GetFeatures)) == Some(FeaturesRetrieved(enabled))
            && s.record.requireAttention == enabled
  {
    RecordOverRuns(c, start, run);
    RecordOverRuns(c, start, Then(run, step));
    SavedFeatureTold(c, Run(c, start, run), step, enabled);
  }

  lemma SavedFeatureTold(c: Setup, s: State, step: Step, enabled: bool)
    requires step.op == SetFeature(true, enabled, Saved) && s.record.userId == step.session.user
    ensures var r := Next(c, s, step);
            && LastCall(r) == Some(FeatureSet) && r.record.requireAttention == enabled
            && LastCall(Perform(c, r, step.session, GetFeatures)) == Some(FeaturesRetrieved(enabled))
  {
  }

  /**
   Attention over a run that may set it any number of times: where the last saved setting requires it and no face of
   the attempt ever has open eyes, the in-process engine neither unlocks nor counts a failure.
   */
  lemma AttentionOverRuns(c: Setup, start: State, run: Trace<Step>, x: Session, e: AuthEnv)
    requires Plain(start.record) && LegalRun(c, start, run) && !c.authAvailable
    requires OnRecord(c, start, run).requireAttention
    requires forall k :: 0 <= k < |e.frames| ==> EyesShut(e.frames[k].small) && EyesShut(e.frames[k].large)
    ensures var s := Run(c, start, run);
            var r := Authenticated(c, s, x, e);
            && LastCall(r) != Some(AuthenticationSucceeded(s.record.enrollmentId))
            && TrackerOf(r, x.user) == TrackerOf(s, x.user)
  {
    RecordOverRuns(c, start, run);
    ClosedEyesNeverCount(c, Run(c, start, run), x, e);
  }

  /** Where the last saved setting does not require it, the verdict is the one all open eyes would have had. */
  lemma InattentionOverRuns(c: Setup, start: State, run: Trace<Step>, x: Session, e: AuthEnv)
    requires Plain(start.record) && LegalRun(c, start, run) && !c.authAvailable
    requires !OnRecord(c, start, run).requireAttention && Rejection(c, Run(c, start, run), x, e).None?
    ensures var s := Run(c, start, run);
            Ends(s, Authenticated(c, s, x, e), x, e, FramesVerdict(c, s, e.(frames := AllEyesOpen(e.frames))))
  {
    RecordOverRuns(c, start, run);
    EyesIgnored(c, Run(c, start, run), x, e);
  }
}
