/**
 What operations report: one verdict each, given with the camera released; exactly when an enrolment or an attempt
 succeeds; challenges; and the reports that can be wrong.
 */
module FaceHalOutcomes {
  import opened Wrappers
  import opened Callbacks
  import opened Traces
  import opened EnrollmentRecord
  import opened FaceHal
  import opened FaceHalReports
  import Camera

  // ----- One verdict, and an idle camera when it is given

  predicate IsVerdict(call: Callback) {
    || call.OnError? || call.AuthenticationSucceeded? || call.AuthenticationFailed?
    || call.LockoutTimed? || call.LockoutPermanent?
    || (call.EnrollmentProgress? && call.remaining == 0)
  }

  function Verdicts(trace: Trace<Event>): Trace<Event> {
    match trace
    case Empty => Trace.Empty
    case Then(before, e) => if IsVerdict(e.call) then Then(Verdicts(before), e) else Verdicts(before)
  }

  predicate VerdictWith(e: Event, held: Camera.Handles) {
    IsVerdict(e.call) && e.held == held
  }

  /** One verdict, or a failure followed by one lockout, each with the same camera handles held. */
  predicate OneOutcome(before: Trace<Event>, after: Trace<Event>, held: Camera.Handles) {
    && after.Then? && VerdictWith(after.last, held)
    && (after.before == before ||
        (&& after.before.Then? && after.before.before == before
         && after.before.last.call == AuthenticationFailed && VerdictWith(after.before.last, held)
         && (after.last.call.LockoutTimed? || after.last.call == LockoutPermanent)))
  }

  lemma {:induction false} QuietVerdicts(trace: Trace<Event>, x: Session, at: int, calls: Trace<Callback>,
                                         held: Camera.Handles)
    requires Quiet(calls)
    ensures Verdicts(Extended(trace, x, at, calls, held)) == Verdicts(trace)
  {
    if calls.Empty? {
    } else {
      QuietVerdicts(trace, x, at, calls.before, held);
    }
  }

  /** From s to r exactly one outcome is reported, while the camera holds `held`, which it still holds in r. */
  predicate Outcome(s: State, r: State, held: Camera.Handles) {
    r.camera == held && OneOutcome(Verdicts(s.trace), Verdicts(r.trace), held)
  }

  lemma EnrolledOutcome(c: Setup, s: State, x: Session, challenge: int, preview: bool, e: EnrollEnv)
    ensures Outcome(s, Enrolled(c, s, x, challenge, preview, e), HeldAfter(c, s, x, Enroll(challenge, preview, e)))
  {
    var quiet, during, f := EnrolledTold(c, s, x, challenge, preview, e);
    QuietVerdicts(s.trace, x, s.clock, quiet, during);
  }

  lemma AuthenticatedOutcome(c: Setup, s: State, x: Session, e: AuthEnv)
    ensures Outcome(s, Authenticated(c, s, x, e), HeldAfter(c, s, x, Authenticate(e)))
  {
    var quiet, during, verdict, f := AuthenticatedTold(c, s, x, e);
    QuietVerdicts(s.trace, x, s.clock, quiet, during);
  }

  /** The operation starts the camera, and creates a handle there that stop cannot free. */
  predicate CameraLeaks(c: Setup, s: State, x: Session, op: Operation) {
    match op
    case Enroll(challenge, _, e) => EnrollRefusal(s, x, challenge, e).None? && Camera.Leaks(e.camera)
    case Authenticate(e) =>
      s.record.userId == x.user && AttemptRefusal(c, s, TrackerOf(s, x.user), e).None? && Camera.Leaks(e.camera)
    case _ => false
  }

  /**
   Every enrolment and every attempt reports exactly one verdict (a failure may be followed by one lockout) on every
   path, when the camera has been released already. From an idle camera, it is idle then exactly when the start did
   not create an output target (session output) without its request (container).
   */
  lemma OneOutcomePerOperation(c: Setup, s: State, x: Session, op: Operation)
    requires op.Enroll? || op.Authenticate?
    ensures var r := Perform(c, s, x, op);
            && Outcome(s, r, HeldAfter(c, s, x, op))
            && (s.camera == Camera.NO_HANDLES ==> (r.camera == Camera.NO_HANDLES <==> !CameraLeaks(c, s, x, op)))
  {
    match op {
      case Enroll(challenge, preview, e) =>
        EnrolledOutcome(c, s, x, challenge, preview, e);
        Camera.NothingHeldIff(preview, e.camera);
      case Authenticate(e) =>
        AuthenticatedOutcome(c, s, x, e);
        Camera.NothingHeldIff(false, e.camera);
    }
  }

  predicate NeverLeaks(c: Setup, start: State, run: Trace<Step>) {
    match run
    case Empty => true
    case Then(before, step) =>
      NeverLeaks(c, start, before) && !CameraLeaks(c, Run(c, start, before), step.session, step.op)
  }

  predicate AllIdle(verdicts: Trace<Event>) {
    verdicts.Then? ==> AllIdle(verdicts.before) && VerdictWith(verdicts.last, Camera.NO_HANDLES)
  }

  lemma OtherOperationIdle(c: Setup, s: State, x: Session, op: Operation)
    requires !op.Enroll? && !op.Authenticate?
    requires s.camera == Camera.NO_HANDLES && AllIdle(Verdicts(s.trace))
    ensures var r := Perform(c, s, x, op); r.camera == Camera.NO_HANDLES && AllIdle(Verdicts(r.trace))
  {
    OtherTrace(c, s, x, op);
    OtherIdle(s.trace, Event(x, s.clock, OtherCall(s, x, op), s.camera));
  }

  lemma OtherIdle(trace: Trace<Event>, e: Event)
    requires AllIdle(Verdicts(trace)) && e.held == Camera.NO_HANDLES
    ensures AllIdle(Verdicts(Then(trace, e)))
  {
  }

  /** Over every run: the camera is idle between operations, and was idle at every verdict ever reported. */
  lemma {:induction false} IdleOverRuns(c: Setup, start: State, run: Trace<Step>)
    requires Booted(start) && NeverLeaks(c, start, run)
    ensures var s := Run(c, start, run); s.camera == Camera.NO_HANDLES && AllIdle(Verdicts(s.trace))
  {
    if run.Empty? {
    } else {
      IdleOverRuns(c, start, run.before);
      var s, x, op := Run(c, start, run.before), run.last.session, run.last.op;
      if op.Enroll? || op.Authenticate? {
        OneOutcomePerOperation(c, s, x, op);
        OutcomeIdle(Verdicts(s.trace), Verdicts(Perform(c, s, x, op).trace));
      } else {
        OtherOperationIdle(c, s, x, op);
      }
    }
  }

  lemma OutcomeIdle(before: Trace<Event>, after: Trace<Event>)
    requires AllIdle(before) && OneOutcome(before, after, Camera.NO_HANDLES)
    ensures AllIdle(after)
  {
  }

  // ----- When an operation succeeds

  /**
   An enrolment reports its end, with 0 frames remaining, and writes a record of the user, exactly when its session
   holds the challenge, no record exists, and every answer it needs is good; else it reports an error and leaves no
   new record.
   */
  lemma EnrolmentSucceedsIff(c: Setup, s: State, x: Session, challenge: int, preview: bool, e: EnrollEnv)
    ensures var r := Enrolled(c, s, x, challenge, preview, e);
            r.trace.Then? &&
            if EnrolGranted(c, s, x, challenge, e)
            then && r.trace.last.call == EnrollmentProgress(e.enrollmentId, 0)
                 && r.record == NewRecord(s.record, x.user, e, EngineName(c))
            else r.trace.last.call.OnError? && (r.record == s.record || r.record == NO_ENROLLMENT)
  {
    var quiet, during, f := EnrolledTold(c, s, x, challenge, preview, e);
  }

  /** The last callback so far is an unlock. */
  predicate Unlocks(s: State) {
    s.trace.Then? && s.trace.last.call.AuthenticationSucceeded?
  }

  /**
   An attempt unlocks exactly when its user is the enrolled one and not locked out, with the engine of the enrolment,
   and a frame is accepted; it reports the record's enrolment and clears the user's lockout.
   */
  lemma UnlockSucceedsIff(c: Setup, s: State, x: Session, e: AuthEnv)
    ensures var r := Authenticated(c, s, x, e);
            && (Unlocks(r) <==> UnlockGranted(c, s, x, e))
            && (Unlocks(r) ==> r.trace.last.call.enrolled == s.record.enrollmentId && x.user !in r.lockouts)
  {
    var quiet, during, verdict, f := AuthenticatedTold(c, s, x, e);
  }

  // ----- Challenges

  /** The challenges a session has generated and not revoked, read off the trace. */
  function Outstanding(trace: Trace<Event>, id: int): set<int> {
    match trace
    case Empty => {}
    case Then(before, e) =>
      if e.session.id != id then Outstanding(before, id)
      else if e.call.ChallengeGenerated? then Outstanding(before, id) + {e.call.challenge}
      else if e.call.ChallengeRevoked? then Outstanding(before, id) - {e.call.challenge}
      else Outstanding(before, id)
  }

  /** Without its challenge outstanding in the very session, an enrolment does nothing but report an error. */
  lemma EnrolmentNeedsChallenge(c: Setup, s: State, x: Session, challenge: int, preview: bool, e: EnrollEnv)
    requires Challenges(s, x.id) == Outstanding(s.trace, x.id) && challenge !in Outstanding(s.trace, x.id)
    ensures Enrolled(c, s, x, challenge, preview, e) == Say(s, x, OnError(UNABLE_TO_PROCESS))
  {
  }

  lemma {:induction false} QuietOutstanding(trace: Trace<Event>, x: Session, at: int, calls: Trace<Callback>,
                                            held: Camera.Handles, id: int)
    requires Quiet(calls)
    ensures Outstanding(Extended(trace, x, at, calls, held), id) == Outstanding(trace, id)
  {
    if calls.Empty? {
    } else {
      QuietOutstanding(trace, x, at, calls.before, held, id);
    }
  }

  predicate SameChallenges(s: State, r: State, id: int) {
    Challenges(r, id) == Challenges(s, id) && Outstanding(r.trace, id) == Outstanding(s.trace, id)
  }

  lemma EnrolledSameChallenges(c: Setup, s: State, x: Session, challenge: int, preview: bool, e: EnrollEnv, id: int)
    ensures SameChallenges(s, Enrolled(c, s, x, challenge, preview, e), id)
  {
    var quiet, during, f := EnrolledTold(c, s, x, challenge, preview, e);
    QuietOutstanding(s.trace, x, s.clock, quiet, during, id);
  }

  lemma AuthenticatedSameChallenges(c: Setup, s: State, x: Session, e: AuthEnv, id: int)
    ensures SameChallenges(s, Authenticated(c, s, x, e), id)
  {
    var quiet, during, verdict, f := AuthenticatedTold(c, s, x, e);
    QuietOutstanding(s.trace, x, s.clock, quiet, during, id);
    EndOutstanding(s, Authenticated(c, s, x, e), Extended(s.trace, x, s.clock, quiet, during), x, e, verdict, f, id);
  }

  lemma EndOutstanding(s: State, r: State, trace: Trace<Event>, x: Session, e: AuthEnv, verdict: Option<Verdict>,
                       f: Final, id: int)
    requires AttemptEnds(s, r, x, e, verdict, f)
    ensures Outstanding(Closed(trace, f), id) == Outstanding(trace, id)
  {
  }

  lemma ReportsSameChallenges(s: State, r: State, x: Session, op: Operation, id: int)
    requires !op.Enroll? && !op.Authenticate? && !op.GenerateChallenge? && !op.RevokeChallenge?
    requires OnlyReports(s, r, x, OtherCall(s, x, op))
    ensures SameChallenges(s, r, id)
  {
  }

  lemma StepChallenges(c: Setup, s: State, x: Session, op: Operation, id: int)
    requires Challenges(s, id) == Outstanding(s.trace, id)
    ensures var r := Perform(c, s, x, op); Challenges(r, id) == Outstanding(r.trace, id)
  {
    match op {
      case Enroll(challenge, preview, e) => EnrolledSameChallenges(c, s, x, challenge, preview, e, id);
      case Authenticate(e) => AuthenticatedSameChallenges(c, s, x, e, id);
      case GenerateChallenge(challenge) =>
      case RevokeChallenge(challenge) =>
      case ResetLockout =>
      case _ =>
        OtherReports(c, s, x, op);
        ReportsSameChallenges(s, Perform(c, s, x, op), x, op, id);
    }
  }

  /** A session's challenge set is always exactly what it has generated and not revoked. */
  lemma {:induction false} ChallengesOverRuns(c: Setup, start: State, run: Trace<Step>, id: int)
    requires Booted(start)
    ensures var s := Run(c, start, run); Challenges(s, id) == Outstanding(s.trace, id)
  {
    if run.Empty? {
    } else {
      ChallengesOverRuns(c, start, run.before, id);
      StepChallenges(c, Run(c, start, run.before), run.last.session, run.last.op, id);
    }
  }

  // ----- Reports that can be wrong

  /** The owner's successful removal leaves nothing to enumerate exactly when the record file could be deleted. */
  lemma RemovalReportTrueIff(c: Setup, s: State, x: Session, ids: seq<int>, r: Removal, unlinked: bool)
    requires s.record.userId == x.user >= 0 && s.record.enrollmentId in ids && r.reported
    ensures var after := Perform(c, s, x, RemoveEnrollments(ids, r, unlinked));
            && after.trace.last.call == EnrollmentsRemoved(ids)
            && (Perform(c, after, x, EnumerateEnrollments).trace.last.call == EnrollmentsEnumerated([]) <==> unlinked)
  {
  }

  /** The id reported by an invalidation is the one retrieved next exactly when it was written, or was the id before. */
  lemma InvalidationReportTrueIff(c: Setup, s: State, x: Session, newId: int, saving: Saving)
    requires s.record.userId == x.user >= 0 && newId >= 1
    ensures var after := Perform(c, s, x, InvalidateAuthenticatorId(newId, saving));
            && after.trace.last.call == AuthenticatorIdInvalidated(newId)
            && (Perform(c, after, x, GetAuthenticatorId).trace.last.call == AuthenticatorIdRetrieved(newId) <==>
                saving.Saved? || (saving.Untouched? && s.record.authenticatorId == newId))
  {
  }
}
