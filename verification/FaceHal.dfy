/**
 What every operation of a face session does to the state that all sessions share (Session.cpp). An operation runs
 under the hardware lock, so it is one step; its environment's answers are parameters of the step. Time is in
 milliseconds.
 */
module FaceHal {
  import opened Wrappers
  import opened Callbacks
  import opened Traces
  import opened EnrollmentRecord
  import opened Camera
  import Decimal
  import EnrollLoop
  import AuthLoop
  import AuthEngine

  const LOCKOUT_TIMED_FAILURES: int := 5
  const LOCKOUT_PERMANENT_FAILURES: int := 20
  const LOCKOUT_DURATION: int := 30000

  /** Fixed for the whole run: the useTee property, and whether the st_auth engine is installed. */
  datatype Setup = Setup(useTee: bool, authAvailable: bool)

  function EngineName(c: Setup): string {
    if !c.authAvailable then CV_ENGINE else if c.useTee then "st_auth_tee" else "st_auth"
  }

  datatype Session = Session(id: int, user: int)

  datatype Tracker = Tracker(failures: int, lockedUntil: int)

  const NO_FAILURES: Tracker := Tracker(0, 0)

  /** A stored template; `owner`, who enrolled it, is history that no operation reads. */
  datatype Template = Template(feature: seq<int>, owner: int)

  /**
   One callback: whose session, when, and which camera handles were held. `at` is the time of the report for an
   authentication failure and the start of the operation for every other callback.
   */
  datatype Event = Event(session: Session, at: int, call: Callback, held: Handles)

  /**
   The record is what load returns from the record file. `enrolled`, the feature extracted by the enrolment that
   created the record, and `trace` are history.
   */
  datatype State = State(
    record: Enrollment,
    enrolled: seq<int>,
    template: Option<Template>,
    faceId: Option<string>,
    lockouts: map<int, Tracker>,
    challenges: map<int, set<int>>,
    camera: Handles,
    clock: int,
    trace: Trace<Event>)

  // ----- The environment's answers

  /** A template removal: what it reports, and whether the template is gone. */
  datatype Removal = Removal(reported: bool, gone: bool)

  /** storeFeature: a failed one may leave any template behind, or the one that removing it first did not remove. */
  datatype Storing = Stored | NotStored(leftover: Option<Template>)

  datatype EnrollEnv = EnrollEnv(
    prepared: bool, camera: StartOutcome, cancelled: bool,
    enrollmentId: int, authenticatorId: int,
    frames: seq<EnrollLoop.Frame>, storing: Storing,
    configured: bool, answers: seq<AuthEngine.Answer>,
    sdkLeftover: Option<Template>, sdkFeature: seq<int>,
    saving: Saving, cleanup: Removal)

  datatype AuthEnv = AuthEnv(
    checkedAt: int, prepared: bool, camera: StartOutcome, startedAt: int, cancelled: bool,
    frames: seq<AuthLoop.Frame>, configured: bool, shots: seq<AuthEngine.Shot>, failedAt: int, lockedAt: int)

  datatype Operation =
    | GenerateChallenge(challenge: int)
    | RevokeChallenge(challenge: int)
    | Enroll(hatChallenge: int, preview: bool, enrollEnv: EnrollEnv)
    | Authenticate(authEnv: AuthEnv)
    | DetectInteraction
    | EnumerateEnrollments
    | RemoveEnrollments(ids: seq<int>, removal: Removal, unlinked: bool)
    | GetFeatures
    | SetFeature(isAttention: bool, enabled: bool, featureSaving: Saving)
    | GetAuthenticatorId
    | InvalidateAuthenticatorId(newId: int, idSaving: Saving)
    | ResetLockout

  // ----- Small effects

  function Emit(s: State, x: Session, at: int, call: Callback): State {
    s.(trace := Then(s.trace, Event(x, at, call, s.camera)))
  }

  /** A trace continued by callbacks of one session at one time, with the same handles held. */
  function Extended(trace: Trace<Event>, x: Session, at: int, calls: Trace<Callback>, held: Handles): Trace<Event> {
    match calls
    case Empty => trace
    case Then(before, call) => Then(Extended(trace, x, at, before, held), Event(x, at, call, held))
  }

  function EmitAll(s: State, x: Session, calls: Trace<Callback>): State {
    s.(trace := Extended(s.trace, x, s.clock, calls, s.camera))
  }

  /** One callback of an operation that reads no clock. */
  function Say(s: State, x: Session, call: Callback): State {
    Emit(s, x, s.clock, call)
  }

  function Challenges(s: State, id: int): set<int> {
    if id in s.challenges then s.challenges[id] else {}
  }

  function TrackerOf(s: State, user: int): Tracker {
    if user in s.lockouts then s.lockouts[user] else NO_FAILURES
  }

  /** Enrollment::save of a user's record. */
  function WithRecord(s: State, e: Enrollment, saving: Saving): State {
    match saving
    case Saved => s.(record := e)
    case Lost => s.(record := NO_ENROLLMENT)
    case Untouched => s
  }

  /** Enrollment::save of the empty record, which deletes the file; a failed unlink leaves it. */
  function WithoutRecord(s: State, unlinked: bool): State {
    if unlinked then s.(record := NO_ENROLLMENT) else s
  }

  function WithoutTemplate(c: Setup, s: State, r: Removal): State {
    s.(template := if r.gone then None else s.template, faceId := if c.authAvailable then None else s.faceId)
  }

  function CameraStopped(s: State): State {
    s.(camera := Stopped(s.camera))
  }

  // ----- Enrolment

  function NewRecord(loaded: Enrollment, user: int, e: EnrollEnv, engine: string): Enrollment {
    loaded.(userId := user, enrollmentId := e.enrollmentId, authenticatorId := e.authenticatorId, engine := engine)
  }

  /** The end of an enrolment whose template is stored. */
  function RecordEnrolled(c: Setup, s: State, x: Session, e: EnrollEnv, feature: seq<int>): State {
    var s1 := WithRecord(s, NewRecord(s.record, x.user, e, EngineName(c)), e.saving);
    if !e.saving.Saved? then Say(WithoutTemplate(c, s1, e.cleanup), x, OnError(UNABLE_TO_PROCESS))
    else Say(Say(s1.(enrolled := feature), x, EnrollmentFinished), x, EnrollmentProgress(e.enrollmentId, 0))
  }

  function EnrolledCv(c: Setup, s: State, x: Session, e: EnrollEnv): State {
    var calls := EnrollLoop.EnrollCalls(e.frames, e.enrollmentId, EnrollLoop.Consumed(e.frames));
    var s1 := CameraStopped(EmitAll(s, x, calls));
    var feature := EnrollLoop.Captured(e.frames);
    if feature == [] then Say(s1, x, OnError(if e.cancelled then CANCELED else TIMEOUT))
    else if e.storing.NotStored? then Say(s1.(template := e.storing.leftover), x, OnError(UNABLE_TO_PROCESS))
    else RecordEnrolled(c, s1.(template := Some(Template(feature, x.user))), x, e, feature)
  }

  /** The end of an st_auth enrolment whose frame loop has ended. */
  function EnrollConcluded(c: Setup, s: State, x: Session, e: EnrollEnv, outcome: AuthEngine.Ending, faceId: int): State
  {
    match outcome
    case Goes => Say(WithoutTemplate(c, s, e.cleanup), x, OnError(if e.cancelled then CANCELED else TIMEOUT))
    case Fails(error) => Say(WithoutTemplate(c, s, e.cleanup), x, OnError(error))
    case Done =>
      var s1 := s.(template := Some(Template(e.sdkFeature, x.user)), faceId := Some(Decimal.Print(faceId)));
      RecordEnrolled(c, s1, x, e, e.sdkFeature)
  }

  function EnrolledAuth(c: Setup, s: State, x: Session, e: EnrollEnv): State {
    var s1 := s.(faceId := None, template := e.sdkLeftover);
    if !e.configured then Say(CameraStopped(s1), x, OnError(UNABLE_TO_PROCESS))
    else
      var s2 := CameraStopped(EmitAll(s1, x, AuthEngine.EnrollCalls(e.answers, e.enrollmentId)));
      EnrollConcluded(c, s2, x, e, AuthEngine.EnrollOutcome(e.answers), AuthEngine.EnrolledFaceId(e.answers))
  }

  /** The error of an enrolment that is refused before the camera starts. */
  function EnrollRefusal(s: State, x: Session, challenge: int, e: EnrollEnv): Option<Error> {
    if challenge !in Challenges(s, x.id) then Some(UNABLE_TO_PROCESS)
    else if s.record.userId >= 0 then Some(NO_SPACE)
    else if !e.prepared then Some(HW_UNAVAILABLE)
    else None
  }

  function Enrolled(c: Setup, s: State, x: Session, challenge: int, preview: bool, e: EnrollEnv): State {
    var refusal := EnrollRefusal(s, x, challenge, e);
    if refusal.Some? then Say(s, x, OnError(refusal.value))
    else
      var s1 := s.(camera := Started(s.camera, preview, e.camera));
      if !StartSucceeds(e.camera) then Say(s1, x, OnError(HW_UNAVAILABLE))
      else if c.authAvailable then EnrolledAuth(c, s1, x, e)
      else EnrolledCv(c, s1, x, e)
  }

  // ----- Authentication

  function LockedOut(t: Tracker, now: int): bool {
    t.failures >= LOCKOUT_PERMANENT_FAILURES || t.lockedUntil > now
  }

  /** checkLockoutLocked, when it refuses the attempt. */
  function LockoutCall(t: Tracker, now: int): Callback {
    if t.failures >= LOCKOUT_PERMANENT_FAILURES then LockoutPermanent else LockoutTimed(t.lockedUntil - now)
  }

  function FailedTracker(t: Tracker, lockedAt: int): Tracker {
    var n := t.failures + 1;
    Tracker(n, if n < LOCKOUT_PERMANENT_FAILURES && n % LOCKOUT_TIMED_FAILURES == 0 then lockedAt + LOCKOUT_DURATION
               else t.lockedUntil)
  }

  /** onAuthenticationFailedLocked */
  function FailureCounted(s: State, x: Session, failedAt: int, lockedAt: int): State {
    var s1 := Emit(s, x, failedAt, AuthenticationFailed);
    var t := FailedTracker(TrackerOf(s, x.user), lockedAt);
    var s2 := s1.(lockouts := s.lockouts[x.user := t]);
    if t.failures >= LOCKOUT_PERMANENT_FAILURES then Say(s2, x, LockoutPermanent)
    else if t.failures % LOCKOUT_TIMED_FAILURES == 0 then Say(s2, x, LockoutTimed(LOCKOUT_DURATION))
    else s2
  }

  function Concluded(s: State, x: Session, verdict: Verdict, e: AuthEnv): State {
    match verdict
    case Succeeded => Say(s.(lockouts := s.lockouts - {x.user}), x, AuthenticationSucceeded(s.record.enrollmentId))
    case Failed => FailureCounted(s, x, e.failedAt, e.lockedAt)
    case Aborted(error) => Say(s, x, OnError(error))
  }

  /** matchFeature reads the stored feature itself, or leaves it to the trusted app to have one. */
  function Attempt(c: Setup, s: State, e: AuthEnv): AuthLoop.Attempt {
    AuthLoop.Attempt(e.startedAt, s.record.requireAttention, c.useTee || s.template.Some?)
  }

  function AuthenticatedCv(c: Setup, s: State, x: Session, e: AuthEnv): State {
    var a := Attempt(c, s, e);
    var s1 := CameraStopped(EmitAll(s, x, AuthLoop.GuideCalls(a, e.frames, AuthLoop.Consumed(a, e.frames))));
    Concluded(s1, x, AuthLoop.Decide(a, e.frames, e.cancelled), e)
  }

  /** The statuses the SDK returns, configured for the record's attention requirement. */
  function StatusesOf(s: State, e: AuthEnv): seq<int> {
    AuthEngine.Statuses(e.shots, s.record.requireAttention)
  }

  function AuthenticatedAuth(s: State, x: Session, e: AuthEnv): State {
    if AuthEngine.FaceIdOf(s.faceId).None? then Say(CameraStopped(s), x, OnError(REENROLL_REQUIRED))
    else if !e.configured then Say(CameraStopped(s), x, OnError(UNABLE_TO_PROCESS))
    else
      var statuses := StatusesOf(s, e);
      var s1 := CameraStopped(EmitAll(s, x, AuthEngine.UnlockCalls(statuses, AuthEngine.UnlockShown(statuses))));
      Concluded(s1, x, AuthEngine.Decide(statuses, e.cancelled), e)
  }

  /** The callback of an attempt of the enrolled user that is refused before the camera starts. */
  function AttemptRefusal(c: Setup, s: State, t: Tracker, e: AuthEnv): Option<Callback> {
    if LockedOut(t, e.checkedAt) then Some(LockoutCall(t, e.checkedAt))
    else if !e.prepared then Some(OnError(HW_UNAVAILABLE))
    else if s.record.engine != EngineName(c) then Some(OnError(REENROLL_REQUIRED))
    else None
  }

  /** An attempt that is not refused. */
  function Attempted(c: Setup, s: State, x: Session, e: AuthEnv): State {
    var s1 := s.(camera := Started(s.camera, false, e.camera));
    if !StartSucceeds(e.camera) then Say(s1, x, OnError(HW_UNAVAILABLE))
    else if c.authAvailable then AuthenticatedAuth(s1, x, e)
    else AuthenticatedCv(c, s1, x, e)
  }

  /** sLockouts[mUserId], which creates a missing entry. */
  function WithTracker(s: State, user: int): State {
    s.(lockouts := s.lockouts[user := TrackerOf(s, user)])
  }

  function Authenticated(c: Setup, s: State, x: Session, e: AuthEnv): State {
    if s.record.userId != x.user then Say(s, x, OnError(UNABLE_TO_PROCESS))
    else
      var s1 := WithTracker(s, x.user);
      var refusal := AttemptRefusal(c, s, TrackerOf(s, x.user), e);
      if refusal.Some? then Say(s1, x, refusal.value) else Attempted(c, s1, x, e)
  }

  // ----- The other operations

  function EnrollmentsRemovedBy(c: Setup, s: State, x: Session, ids: seq<int>, r: Removal, unlinked: bool): State {
    if s.record.userId != x.user || s.record.enrollmentId !in ids then Say(s, x, EnrollmentsRemoved(ids))
    else
      var s1 := WithoutTemplate(c, s, r);
      if !r.reported then Say(s1, x, OnError(UNABLE_TO_REMOVE))
      else Say(WithoutRecord(s1, unlinked), x, EnrollmentsRemoved(ids))
  }

  function FeatureSetTo(s: State, x: Session, isAttention: bool, enabled: bool, saving: Saving): State {
    if s.record.userId != x.user || !isAttention then Say(s, x, OnError(UNABLE_TO_PROCESS))
    else
      var s1 := WithRecord(s, s.record.(requireAttention := enabled), saving);
      Say(s1, x, if saving.Saved? then FeatureSet else OnError(UNABLE_TO_PROCESS))
  }

  function Invalidated(s: State, x: Session, newId: int, saving: Saving): State {
    if s.record.userId != x.user then Say(s, x, AuthenticatorIdInvalidated(0))
    else Say(WithRecord(s, s.record.(authenticatorId := newId), saving), x, AuthenticatorIdInvalidated(newId))
  }

  function Perform(c: Setup, s: State, x: Session, op: Operation): State {
    match op
    case GenerateChallenge(ch) =>
      Say(s.(challenges := s.challenges[x.id := Challenges(s, x.id) + {ch}]), x, ChallengeGenerated(ch))
    case RevokeChallenge(ch) =>
      Say(s.(challenges := s.challenges[x.id := Challenges(s, x.id) - {ch}]), x, ChallengeRevoked(ch))
    case Enroll(challenge, preview, e) => Enrolled(c, s, x, challenge, preview, e)
    case Authenticate(e) => Authenticated(c, s, x, e)
    case DetectInteraction => Say(s, x, OnError(UNABLE_TO_PROCESS))
    case EnumerateEnrollments =>
      Say(s, x, EnrollmentsEnumerated(if s.record.userId == x.user then [s.record.enrollmentId] else []))
    case RemoveEnrollments(ids, r, unlinked) => EnrollmentsRemovedBy(c, s, x, ids, r, unlinked)
    case GetFeatures =>
      Say(s, x, if s.record.userId == x.user then FeaturesRetrieved(s.record.requireAttention)
                else OnError(UNABLE_TO_PROCESS))
    case SetFeature(isAttention, enabled, saving) => FeatureSetTo(s, x, isAttention, enabled, saving)
    case GetAuthenticatorId =>
      Say(s, x, AuthenticatorIdRetrieved(if s.record.userId == x.user then s.record.authenticatorId else 0))
    case InvalidateAuthenticatorId(newId, saving) => Invalidated(s, x, newId, saving)
    case ResetLockout => Say(s.(lockouts := s.lockouts - {x.user}), x, LockoutCleared)
  }

  // ----- Steps and runs

  /** An operation of a session that runs until the clock shows `ended`. */
  datatype Step = Step(session: Session, op: Operation, ended: int)

  predicate LegalRemoval(r: Removal) {
    r.reported ==> r.gone
  }

  /** The clock readings inside the operation, in order. */
  predicate LegalReadings(s: State, op: Operation, ended: int) {
    match op
    case Authenticate(e) => s.clock <= e.checkedAt <= e.failedAt <= e.lockedAt <= ended
    case _ => s.clock <= ended
  }

  predicate LegalIds(op: Operation) {
    match op
    case Enroll(_, _, e) =>
      && 0 <= e.enrollmentId <= Decimal.INT32_MAX && 1 <= e.authenticatorId <= Decimal.INT64_MAX
      && LegalRemoval(e.cleanup)
    case RemoveEnrollments(_, r, _) => LegalRemoval(r)
    case InvalidateAuthenticatorId(newId, _) => 1 <= newId <= Decimal.INT64_MAX
    case _ => true
  }

  /** Users are not negative, the clock does not run backwards, and random ids are in their ranges. */
  predicate Legal(s: State, step: Step) {
    && 0 <= step.session.user <= Decimal.INT32_MAX
    && LegalReadings(s, step.op, step.ended)
    && LegalIds(step.op)
  }

  function Next(c: Setup, s: State, step: Step): State {
    Perform(c, s, step.session, step.op).(clock := step.ended)
  }

  /** A run of any steps of any users and sessions, and the state it leads to. */
  predicate LegalRun(c: Setup, start: State, run: Trace<Step>) {
    match run
    case Empty => true
    case Then(before, step) => LegalRun(c, start, before) && Legal(Run(c, start, before), step)
  }

  function Run(c: Setup, start: State, run: Trace<Step>): State {
    match run
    case Empty => start
    case Then(before, step) => Next(c, Run(c, start, before), step)
  }

  /**
   A process has just started: nobody is locked out, no session has a challenge, nothing is held or reported. The
   record file, the template and the face id are whatever earlier processes left.
   */
  predicate Booted(s: State) {
    s.lockouts == map[] && s.challenges == map[] && s.camera == NO_HANDLES && s.trace == Trace.Empty
  }

  /** The process ends, and another one starts when the clock shows `now`. */
  function Rebooted(s: State, now: int): (r: State)
    ensures Booted(r)
  {
    s.(lockouts := map[], challenges := map[], camera := NO_HANDLES, trace := Trace.Empty, clock := now)
  }

  /** One process: when it started and what it ran. */
  datatype Life = Life(now: int, run: Trace<Step>)

  /** The state after a sequence of processes. */
  function Lived(c: Setup, start: State, lives: Trace<Life>): State {
    match lives
    case Empty => start
    case Then(before, life) => Run(c, Rebooted(Lived(c, start, before), life.now), life.run)
  }

  predicate LegalLives(c: Setup, start: State, lives: Trace<Life>) {
    match lives
    case Empty => true
    case Then(before, life) =>
      LegalLives(c, start, before) && LegalRun(c, Rebooted(Lived(c, start, before), life.now), life.run)
  }
}
