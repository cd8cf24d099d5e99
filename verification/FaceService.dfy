/**
 The session operations in their own, imperative form (Session.cpp): one object with the files, the camera, the
 st_auth engine, the static lockout map and the challenge set of every session. Each method is proved to take the
 state as FaceHal says, so everything proved about FaceHal's steps and runs holds of this object.
 */
module FaceService {
  import opened Wrappers
  import opened Callbacks
  import opened Traces
  import opened EnrollmentRecord
  import opened FaceHal
  import opened FaceHalLockout
  import opened FaceHalHistory
  import opened FaceHalLeftovers
  import opened FaceHalOutcomes
  import opened FaceHalOwnership
  import AuthEngine
  import AuthLoop
  import Camera
  import Decimal
  import EnrollLoop

  /** What save needs of a record so that load gives it back. */
  predicate Storable(e: Enrollment) {
    InRange(e) && (e.userId >= 0 ==> e.engine != "" && EngineFits(e.engine))
  }

  lemma StorableRoundTrip(e: Enrollment)
    requires Storable(e) && e.userId >= 0
    ensures Load(Some(Text(e))) == Some(e)
  {
    RoundTrip(e);
  }

  predicate LegalUser(x: Session) {
    0 <= x.user <= Decimal.INT32_MAX
  }

  class Service {
    const setup: Setup
    const camera: Camera.CameraSource<seq<int>>
    const auth: AuthEngine.Engine
    var recordFile: Option<string>
    var template: Option<Template>
    var lockouts: map<int, Tracker>
    var challenges: map<int, set<int>>
    var clock: int
    var trace: Trace<Event>
    ghost var enrolled: seq<int>
    ghost const start: State
    ghost var history: Trace<Step>

    /** The record file is absent or well formed, and no nextFrame call is outstanding. */
    ghost predicate Valid()
      reads this, camera
    {
      Load(recordFile).Some? && camera.Valid() && camera.History().waiting.None?
    }

    ghost function Value(): State
      requires Valid()
      reads this, camera, auth
    {
      State(Load(recordFile).value, enrolled, template, auth.mFaceIdFile, lockouts, challenges, camera.handles, clock,
            trace)
    }

    /** The object is in the state that its legal history of scheduled operations leads to. */
    ghost predicate Reached()
      reads this, camera, auth
    {
      Valid() && Booted(start) && LegalRun(setup, start, history) && Value() == Run(setup, start, history)
    }

    /** A new process finds the record file, the template and the face id as the ones before it left them. */
    constructor (setup: Setup, recordFile: Option<string>, template: Option<Template>, faceIdFile: Option<string>,
                 now: int, ghost enrolled: seq<int>)
      requires Load(recordFile).Some?
      ensures Reached() && this.setup == setup && history == Trace.Empty
      ensures start == State(Load(recordFile).value, enrolled, template, faceIdFile, map[], map[], Camera.NO_HANDLES,
                             now, Trace.Empty)
      ensures fresh(camera) && fresh(auth)
    {
      this.setup := setup;
      camera := new Camera.CameraSource<seq<int>>();
      auth := new AuthEngine.Engine(faceIdFile);
      this.recordFile, this.template, lockouts, challenges := recordFile, template, map[], map[];
      clock, trace, this.enrolled, history := now, Trace.Empty, enrolled, Trace.Empty;
      start := State(Load(recordFile).value, enrolled, template, faceIdFile, map[], map[], Camera.NO_HANDLES,
                     now, Trace.Empty);
    }

    // ----- Callbacks

    method EmitAt(x: Session, at: int, call: Callback)
      requires Valid()
      modifies this`trace
      ensures Valid() && Value() == Emit(old(Value()), x, at, call)
    {
      trace := Then(trace, Event(x, at, call, camera.handles));
    }

    method Report(x: Session, call: Callback)
      requires Valid()
      modifies this`trace
      ensures Valid() && Value() == Say(old(Value()), x, call)
    {
      EmitAt(x, clock, call);
    }

    method ReportAll(x: Session, calls: Trace<Callback>)
      requires Valid()
      modifies this`trace
      ensures Valid() && Value() == EmitAll(old(Value()), x, calls)
      decreases calls
    {
      match calls
      case Empty =>
      case Then(before, call) =>
        ReportAll(x, before);
        Report(x, call);
    }

    // ----- The record file

    method LoadRecord() returns (e: Enrollment)
      requires Valid()
      ensures e == Value().record && InRange(e)
      ensures e.userId >= 0 ==> Storable(e)
    {
      e := Load(recordFile).value;
      if e.userId >= 0 { LoadedEngineFits(recordFile); }
    }

    /** Enrollment::save of a user's record. */
    method SaveRecord(e: Enrollment, saving: Saving) returns (ok: bool)
      requires Valid() && Storable(e) && e.userId >= 0
      modifies this`recordFile
      ensures Valid() && ok == saving.Saved? && Value() == WithRecord(old(Value()), e, saving)
    {
      if saving.Saved? {
        recordFile := Some(Text(e));
        StorableRoundTrip(e);
      } else if saving.Lost? {
        recordFile := None;
      }
      ok := saving.Saved?;
    }

    /** Enrollment::save of the empty record. */
    method DeleteRecord(unlinked: bool) returns (ok: bool)
      requires Valid()
      modifies this`recordFile
      ensures Valid() && ok == unlinked && Value() == WithoutRecord(old(Value()), unlinked)
    {
      if unlinked { recordFile := None; }
      ok := unlinked;
    }

    // ----- The template

    method RemoveFeature(r: Removal) returns (ok: bool)
      requires Valid()
      modifies this`template, auth`mFaceIdFile
      ensures Valid() && ok == r.reported && Value() == WithoutTemplate(setup, old(Value()), r)
    {
      if r.gone { template := None; }
      if setup.authAvailable {
        ok := auth.RemoveTemplate(r.reported);
      } else {
        ok := r.reported;
      }
    }

    /** storeFeature, with the removal it begins with: what that left only shows if the store then fails. */
    method StoreFeature(feature: seq<int>, owner: int, o: Storing) returns (ok: bool)
      requires Valid() && !setup.authAvailable
      modifies this`template
      ensures Valid() && ok == o.Stored?
      ensures Value() == old(Value()).(template := if ok then Some(Template(feature, owner)) else o.leftover)
    {
      template := if o.Stored? then Some(Template(feature, owner)) else o.leftover;
      ok := o.Stored?;
    }

    // ----- Enrolment

    /** The common end of both enrolments, once the template is stored. */
    method FinishEnrollment(loaded: Enrollment, x: Session, e: EnrollEnv, ghost feature: seq<int>)
      requires Valid() && LegalUser(x) && LegalIds(Enroll(0, false, e))
      requires loaded == Value().record && loaded.userId < 0
      modifies this`recordFile, this`template, this`trace, this`enrolled, auth`mFaceIdFile
      ensures Valid() && Value() == RecordEnrolled(setup, old(Value()), x, e, feature)
    {
      var enrollment := loaded.(userId := x.user, enrollmentId := e.enrollmentId, authenticatorId := e.authenticatorId,
                                engine := EngineName(setup));
      var saved := SaveRecord(enrollment, e.saving);
      if !saved {
        var _ := RemoveFeature(e.cleanup);
        Report(x, OnError(UNABLE_TO_PROCESS));
        return;
      }
      enrolled := feature;
      Report(x, EnrollmentFinished);
      Report(x, EnrollmentProgress(e.enrollmentId, 0));
    }

    /** doEnroll after prepare, with the in-process engine. */
    method EnrollCv(loaded: Enrollment, x: Session, e: EnrollEnv)
      requires Valid() && LegalUser(x) && LegalIds(Enroll(0, false, e)) && !setup.authAvailable
      requires loaded == Value().record && loaded.userId < 0
      modifies this`recordFile, this`template, this`trace, this`enrolled, camera, auth`mFaceIdFile
      ensures Valid() && Value() == EnrolledCv(setup, old(Value()), x, e)
    {
      var feature, calls := EnrollLoop.CaptureFeature(e.frames, e.enrollmentId);
      ReportAll(x, calls);
      camera.Stop();
      if feature == [] {
        Report(x, OnError(if e.cancelled then CANCELED else TIMEOUT));
        return;
      }
      var stored := StoreFeature(feature, x.user, e.storing);
      if !stored {
        Report(x, OnError(UNABLE_TO_PROCESS));
        return;
      }
      FinishEnrollment(loaded, x, e, feature);
    }

    /** doEnrollAuth after the camera has started. */
    method EnrollAuth(loaded: Enrollment, x: Session, e: EnrollEnv)
      requires Valid() && LegalUser(x) && LegalIds(Enroll(0, false, e)) && setup.authAvailable
      requires loaded == Value().record && loaded.userId < 0
      modifies this`recordFile, this`template, this`trace, this`enrolled, camera, auth
      ensures Valid() && Value() == EnrolledAuth(setup, old(Value()), x, e)
    {
      var error := auth.BeginEnroll(e.configured);
      template := e.sdkLeftover;
      if error.Some? {
        camera.Stop();
        Report(x, OnError(error.value));
        return;
      }
      var outcome, calls := AuthEngine.EnrollFrames(auth, e.answers, e.enrollmentId);
      ReportAll(x, calls);
      camera.Stop();
      FinishAuth(loaded, x, e, outcome, AuthEngine.EnrolledFaceId(e.answers));
    }

    /** doEnrollAuth after its frame loop; a completed one has written `faceId`. */
    method FinishAuth(loaded: Enrollment, x: Session, e: EnrollEnv, outcome: AuthEngine.Ending, ghost faceId: int)
      requires Valid() && LegalUser(x) && LegalIds(Enroll(0, false, e)) && setup.authAvailable
      requires loaded == Value().record && loaded.userId < 0
      requires outcome.Done? ==> auth.mFaceIdFile == Some(Decimal.Print(faceId))
      modifies this`recordFile, this`template, this`trace, this`enrolled, auth`mFaceIdFile
      ensures Valid() && Value() == EnrollConcluded(setup, old(Value()), x, e, outcome, faceId)
    {
      if !outcome.Done? {
        var _ := RemoveFeature(e.cleanup);
        Report(x, OnError(if outcome.Fails? then outcome.error else if e.cancelled then CANCELED else TIMEOUT));
        return;
      }
      template := Some(Template(e.sdkFeature, x.user));
      FinishEnrollment(loaded, x, e, e.sdkFeature);
    }

    method DoEnroll(x: Session, challenge: int, preview: bool, e: EnrollEnv)
      requires Valid() && LegalUser(x) && LegalIds(Enroll(challenge, preview, e))
      modifies this`recordFile, this`template, this`trace, this`enrolled, camera, auth
      ensures Valid() && Value() == Enrolled(setup, old(Value()), x, challenge, preview, e)
    {
      if !(x.id in challenges && challenge in challenges[x.id]) {
        Report(x, OnError(UNABLE_TO_PROCESS));
        return;
      }
      var loaded := LoadRecord();
      if loaded.userId >= 0 {
        Report(x, OnError(NO_SPACE));
        return;
      }
      if !e.prepared {
        Report(x, OnError(HW_UNAVAILABLE));
        return;
      }
      var ok := camera.StartCamera(preview, e.camera);
      if !ok {
        Report(x, OnError(HW_UNAVAILABLE));
      } else if setup.authAvailable {
        EnrollAuth(loaded, x, e);
      } else {
        EnrollCv(loaded, x, e);
      }
    }

    // ----- Authentication

    method CheckLockoutLocked(x: Session, now: int) returns (locked: bool)
      requires Valid()
      modifies this`lockouts, this`trace
      ensures Valid()
      ensures var t := TrackerOf(old(Value()), x.user);
              && locked == LockedOut(t, now)
              && Value() == (var s := WithTracker(old(Value()), x.user);
                             if locked then Say(s, x, LockoutCall(t, now)) else s)
    {
      if x.user !in lockouts { lockouts := lockouts[x.user := NO_FAILURES]; }
      assert lockouts == WithTracker(old(Value()), x.user).lockouts;
      var lockout := lockouts[x.user];
      if lockout.failures >= LOCKOUT_PERMANENT_FAILURES {
        Report(x, LockoutPermanent);
        return true;
      }
      if lockout.lockedUntil > now {
        Report(x, LockoutTimed(lockout.lockedUntil - now));
        return true;
      }
      return false;
    }

    method OnAuthenticationFailedLocked(x: Session, failedAt: int, lockedAt: int)
      requires Valid()
      modifies this`lockouts, this`trace
      ensures Valid() && Value() == FailureCounted(old(Value()), x, failedAt, lockedAt)
    {
      EmitAt(x, failedAt, AuthenticationFailed);
      var lockout := if x.user in lockouts then lockouts[x.user] else NO_FAILURES;
      lockout := lockout.(failures := lockout.failures + 1);
      if lockout.failures >= LOCKOUT_PERMANENT_FAILURES {
        lockouts := lockouts[x.user := lockout];
        Report(x, LockoutPermanent);
      } else if lockout.failures % LOCKOUT_TIMED_FAILURES == 0 {
        lockouts := lockouts[x.user := lockout.(lockedUntil := lockedAt + LOCKOUT_DURATION)];
        Report(x, LockoutTimed(LOCKOUT_DURATION));
      } else {
        lockouts := lockouts[x.user := lockout];
      }
    }

    method Conclude(enrollmentId: int, x: Session, verdict: Verdict, e: AuthEnv)
      requires Valid() && enrollmentId == Value().record.enrollmentId
      modifies this`lockouts, this`trace
      ensures Valid() && Value() == Concluded(old(Value()), x, verdict, e)
    {
      match verdict
      case Succeeded =>
        lockouts := lockouts - {x.user};
        Report(x, AuthenticationSucceeded(enrollmentId));
      case Failed => OnAuthenticationFailedLocked(x, e.failedAt, e.lockedAt);
      case Aborted(error) => Report(x, OnError(error));
    }

    /** doAuthenticate after the camera has started. */
    method AuthenticateCv(loaded: Enrollment, x: Session, e: AuthEnv)
      requires Valid() && loaded == Value().record
      modifies this`lockouts, this`trace, camera
      ensures Valid() && Value() == AuthenticatedCv(setup, old(Value()), x, e)
    {
      var verdict, calls :=
        AuthLoop.Authenticate(AuthLoop.Attempt(e.startedAt, loaded.requireAttention, setup.useTee || template.Some?),
                              e.frames, e.cancelled);
      ReportAll(x, calls);
      camera.Stop();
      Conclude(loaded.enrollmentId, x, verdict, e);
    }

    /** doAuthenticateAuth after the camera has started. */
    method AuthenticateAuth(loaded: Enrollment, x: Session, e: AuthEnv)
      requires Valid() && loaded == Value().record
      modifies this`lockouts, this`trace, camera, auth`mFaceId, auth`mConfig
      ensures Valid() && Value() == AuthenticatedAuth(old(Value()), x, e)
    {
      var error := auth.BeginAuthenticate(loaded.requireAttention, e.configured);
      if error.Some? {
        camera.Stop();
        Report(x, OnError(error.value));
        return;
      }
      var verdict, calls := AuthEngine.AuthenticateFrames(auth, e.shots, e.cancelled);
      ReportAll(x, calls);
      camera.Stop();
      Conclude(loaded.enrollmentId, x, verdict, e);
    }

    method DoAuthenticate(x: Session, e: AuthEnv)
      requires Valid()
      modifies this`lockouts, this`trace, camera, auth`mFaceId, auth`mConfig
      ensures Valid() && Value() == Authenticated(setup, old(Value()), x, e)
    {
      var loaded := LoadRecord();
      if loaded.userId != x.user {
        Report(x, OnError(UNABLE_TO_PROCESS));
        return;
      }
      var locked := CheckLockoutLocked(x, e.checkedAt);
      if locked { return; }
      if !e.prepared {
        Report(x, OnError(HW_UNAVAILABLE));
        return;
      }
      if loaded.engine != EngineName(setup) {
        Report(x, OnError(REENROLL_REQUIRED));
        return;
      }
      var ok := camera.StartCamera(false, e.camera);
      if !ok {
        Report(x, OnError(HW_UNAVAILABLE));
      } else if setup.authAvailable {
        AuthenticateAuth(loaded, x, e);
      } else {
        AuthenticateCv(loaded, x, e);
      }
    }

    // ----- The other operations

    method RemoveEnrollments(x: Session, ids: seq<int>, r: Removal, unlinked: bool)
      requires Valid()
      modifies this`recordFile, this`template, this`trace, auth`mFaceIdFile
      ensures Valid() && Value() == EnrollmentsRemovedBy(setup, old(Value()), x, ids, r, unlinked)
    {
      var loaded := LoadRecord();
      if loaded.userId != x.user || loaded.enrollmentId !in ids {
        Report(x, EnrollmentsRemoved(ids));
        return;
      }
      var removed := RemoveFeature(r);
      if !removed {
        Report(x, OnError(UNABLE_TO_REMOVE));
        return;
      }
      var _ := DeleteRecord(unlinked);
      Report(x, EnrollmentsRemoved(ids));
    }

    method SetFeature(x: Session, isAttention: bool, enabled: bool, saving: Saving)
      requires Valid() && LegalUser(x)
      modifies this`recordFile, this`trace
      ensures Valid() && Value() == FeatureSetTo(old(Value()), x, isAttention, enabled, saving)
    {
      var loaded := LoadRecord();
      if loaded.userId != x.user || !isAttention {
        Report(x, OnError(UNABLE_TO_PROCESS));
        return;
      }
      var saved := SaveRecord(loaded.(requireAttention := enabled), saving);
      if !saved {
        Report(x, OnError(UNABLE_TO_PROCESS));
        return;
      }
      Report(x, FeatureSet);
    }

    method InvalidateAuthenticatorId(x: Session, newId: int, saving: Saving)
      requires Valid() && LegalUser(x) && 1 <= newId <= Decimal.INT64_MAX
      modifies this`recordFile, this`trace
      ensures Valid() && Value() == Invalidated(old(Value()), x, newId, saving)
    {
      var loaded := LoadRecord();
      if loaded.userId != x.user {
        Report(x, AuthenticatorIdInvalidated(0));
        return;
      }
      var _ := SaveRecord(loaded.(authenticatorId := newId), saving);
      Report(x, AuthenticatorIdInvalidated(newId));
    }

    method GenerateChallenge(x: Session, challenge: int)
      requires Valid()
      modifies this`challenges, this`trace
      ensures Valid() && Value() == Perform(setup, old(Value()), x, Operation.GenerateChallenge(challenge))
    {
      var mine := if x.id in challenges then challenges[x.id] else {};
      challenges := challenges[x.id := mine + {challenge}];
      Report(x, ChallengeGenerated(challenge));
    }

    method RevokeChallenge(x: Session, challenge: int)
      requires Valid()
      modifies this`challenges, this`trace
      ensures Valid() && Value() == Perform(setup, old(Value()), x, Operation.RevokeChallenge(challenge))
    {
      var mine := if x.id in challenges then challenges[x.id] else {};
      challenges := challenges[x.id := mine - {challenge}];
      Report(x, ChallengeRevoked(challenge));
    }

    method EnumerateEnrollments(x: Session)
      requires Valid()
      modifies this`trace
      ensures Valid() && Value() == Perform(setup, old(Value()), x, Operation.EnumerateEnrollments)
    {
      var loaded := LoadRecord();
      if loaded.userId == x.user {
        Report(x, EnrollmentsEnumerated([loaded.enrollmentId]));
      } else {
        Report(x, EnrollmentsEnumerated([]));
      }
    }

    method GetFeatures(x: Session)
      requires Valid()
      modifies this`trace
      ensures Valid() && Value() == Perform(setup, old(Value()), x, Operation.GetFeatures)
    {
      var loaded := LoadRecord();
      if loaded.userId != x.user {
        Report(x, OnError(UNABLE_TO_PROCESS));
      } else {
        Report(x, FeaturesRetrieved(loaded.requireAttention));
      }
    }

    method GetAuthenticatorId(x: Session)
      requires Valid()
      modifies this`trace
      ensures Valid() && Value() == Perform(setup, old(Value()), x, Operation.GetAuthenticatorId)
    {
      var loaded := LoadRecord();
      Report(x, AuthenticatorIdRetrieved(if loaded.userId == x.user then loaded.authenticatorId else 0));
    }

    method ResetLockout(x: Session)
      requires Valid()
      modifies this`lockouts, this`trace
      ensures Valid() && Value() == Perform(setup, old(Value()), x, Operation.ResetLockout)
    {
      lockouts := lockouts - {x.user};
      Report(x, LockoutCleared);
    }

    // ----- One scheduled operation

    /** The body of a scheduled operation. */
    method Dispatch(x: Session, op: Operation)
      requires Valid() && LegalUser(x) && LegalIds(op)
      modifies this`recordFile, this`template, this`lockouts, this`challenges, this`trace, this`enrolled, camera, auth
      ensures Valid() && Value() == Perform(setup, old(Value()), x, op)
    {
      match op {
        case GenerateChallenge(challenge) => GenerateChallenge(x, challenge);
        case RevokeChallenge(challenge) => RevokeChallenge(x, challenge);
        case Enroll(challenge, preview, e) => DoEnroll(x, challenge, preview, e);
        case Authenticate(e) => DoAuthenticate(x, e);
        case DetectInteraction => Report(x, OnError(UNABLE_TO_PROCESS));
        case EnumerateEnrollments => EnumerateEnrollments(x);
        case RemoveEnrollments(ids, r, unlinked) => RemoveEnrollments(x, ids, r, unlinked);
        case GetFeatures => GetFeatures(x);
        case SetFeature(isAttention, enabled, saving) => SetFeature(x, isAttention, enabled, saving);
        case GetAuthenticatorId => GetAuthenticatorId(x);
        case InvalidateAuthenticatorId(newId, saving) => InvalidateAuthenticatorId(x, newId, saving);
        case ResetLockout => ResetLockout(x);
      }
    }

    /** schedule: the operation runs as one step, under the hardware lock, until the clock shows `step.ended`. */
    method Schedule(step: Step)
      requires Reached() && Legal(Value(), step)
      modifies this, camera, auth
      ensures Reached() && history == Then(old(history), step)
      ensures Value() == Next(setup, old(Value()), step)
    {
      Dispatch(step.session, step.op);
      clock := step.ended;
      history := Then(history, step);
    }
  }

  /** Whatever a process finds on disk and whatever it runs, the object's fields satisfy what runs guarantee. */
  lemma ServiceGuarantees(v: Service, user: int, id: int)
    requires v.Reached()
    ensures var s := v.Value();
            && TrackerOf(s, user).failures == |FailTimes(v.trace, user)| <= LOCKOUT_PERMANENT_FAILURES
            && Spaced(FailTimes(v.trace, user))
            && Challenges(s, id) == Outstanding(v.trace, id)
    ensures NeverLeaks(v.setup, v.start, v.history) ==>
              v.camera.handles == Camera.NO_HANDLES && AllIdle(Verdicts(v.trace))
  {
    LockoutOverRuns(v.setup, v.start, v.history, user);
    ChallengesOverRuns(v.setup, v.start, v.history, id);
    if NeverLeaks(v.setup, v.start, v.history) { IdleOverRuns(v.setup, v.start, v.history); }
  }

  /** The same for what is on disk: it stays in order as long as no operation named in the conditions disturbs it. */
  lemma ServiceKeepsDisk(v: Service)
    requires v.Reached()
    ensures OwnTemplate(v.start) ==> OwnTemplate(v.Value())
    ensures Coupled(v.start) && NeverBreaks(v.setup, v.start, v.history) && Load(v.recordFile).value.userId >= 0 ==>
              v.template == Some(Template(v.enrolled, Load(v.recordFile).value.userId))
    ensures FaceIdReady(v.setup, v.start) && NeverLosesFaceId(v.setup, v.start, v.history) ==>
              FaceIdReady(v.setup, v.Value())
    ensures (AppCompares(v.setup) ==> NeverFalselyRemoves(v.setup, v.start, v.history)) ==>
              Justified(v.trace, KnownIn(v.start.record))
  {
    var c, start, run := v.setup, v.start, v.history;
    if OwnTemplate(start) { OwnTemplateOverRuns(c, start, run); }
    if Coupled(start) && NeverBreaks(c, start, run) { CoupledOverRuns(c, start, run); }
    if FaceIdReady(c, start) && NeverLosesFaceId(c, start, run) { FaceIdOverRuns(c, start, run); }
    if AppCompares(c) ==> NeverFalselyRemoves(c, start, run) { UnlocksAreEnrolled(c, start, run); }
  }
}
