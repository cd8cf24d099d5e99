/**
 What operations that fail half-way leave on disk: a template without a record, and a record of the st_auth engine
 whose face id is gone, which stays listed and can never unlock.
 */
module FaceHalLeftovers {
  import opened Wrappers
  import opened Callbacks
  import opened Traces
  import opened FaceHal
  import opened FaceHalOutcomes
  import opened FaceHalOwnership
  import opened FaceHalReports
  import AuthEngine
  import Camera
  import EnrollLoop

  // ----- A template without a record

  /** The other direction of Coupled. */
  predicate NoOrphan(s: State) {
    s.template.Some? ==> s.record.userId >= 0
  }

  /**
   The answers with which an enrolment, once its camera runs, fails and leaves a template: a failed store that stored
   something, or a failed clean-up. With the st_auth engine a failed configuration is not cleaned up at all.
   */
  predicate EnrolOrphans(c: Setup, e: EnrollEnv) {
    if c.authAvailable then
      if !e.configured then e.sdkLeftover.Some?
      else
        !e.cleanup.gone && if AuthEngine.EnrollOutcome(e.answers).Done? then !e.saving.Saved? else e.sdkLeftover.Some?
    else
      EnrollLoop.Captured(e.frames) != [] &&
      match e.storing
      case Stored => !e.saving.Saved? && !e.cleanup.gone
      case NotStored(leftover) => leftover.Some?
  }

  /** The steps that leave a template without a record. */
  predicate Orphans(c: Setup, s: State, step: Step) {
    match step.op
    case Enroll(challenge, _, e) =>
      EnrollRefusal(s, step.session, challenge, e).None? && Camera.StartSucceeds(e.camera) && EnrolOrphans(c, e)
    case op => LosesRecord(s, step.session, op) && s.template.Some?
  }

  lemma EnrolledCvOrphan(c: Setup, s: State, x: Session, e: EnrollEnv)
    requires !c.authAvailable && x.user >= 0 && s.record.userId < 0 && s.template.None?
    ensures NoOrphan(EnrolledCv(c, s, x, e)) <==> !EnrolOrphans(c, e)
  {
  }

  lemma EnrolledAuthOrphan(c: Setup, s: State, x: Session, e: EnrollEnv)
    requires c.authAvailable && x.user >= 0 && s.record.userId < 0 && s.template.None?
    ensures NoOrphan(EnrolledAuth(c, s, x, e)) <==> !EnrolOrphans(c, e)
  {
  }

  lemma EnrolledOrphan(c: Setup, s: State, step: Step)
    requires step.op.Enroll? && NoOrphan(s) && Legal(s, step)
    ensures NoOrphan(Next(c, s, step)) <==> !Orphans(c, s, step)
  {
    var Enroll(challenge, preview, e) := step.op;
    if EnrollRefusal(s, step.session, challenge, e).None? {
      var s1 := s.(camera := Camera.Started(s.camera, preview, e.camera));
      if c.authAvailable {
        EnrolledAuthOrphan(c, s1, step.session, e);
      } else {
        EnrolledCvOrphan(c, s1, step.session, e);
      }
    }
  }

  /**
   A step leaves a template without a record exactly when it is an enrolment that fails with something stored and not
   cleaned up, or the owner's change of the attention flag or the authenticator id whose write loses the record file.
   */
  lemma OrphanIff(c: Setup, s: State, step: Step)
    requires NoOrphan(s) && Legal(s, step)
    ensures NoOrphan(Next(c, s, step)) <==> !Orphans(c, s, step)
  {
    match step.op {
      case Enroll(challenge, preview, e) => EnrolledOrphan(c, s, step);
      case RemoveEnrollments(ids, m, unlinked) => RemovalData(c, s, step.session, ids, m, unlinked);
      case _ => OtherData(c, s, step.session, step.op);
    }
  }

  predicate NeverOrphans(c: Setup, start: State, run: Trace<Step>) {
    match run
    case Empty => true
    case Then(before, step) => NeverOrphans(c, start, before) && !Orphans(c, Run(c, start, before), step)
  }

  /** Without such steps, and without broken removals, record and template exist together in every reachable state. */
  lemma {:induction false} TogetherOverRuns(c: Setup, start: State, run: Trace<Step>)
    requires Coupled(start) && NoOrphan(start) && LegalRun(c, start, run)
    requires NeverBreaks(c, start, run) && NeverOrphans(c, start, run)
    ensures var s := Run(c, start, run); Coupled(s) && (s.template.Some? <==> s.record.userId >= 0)
  {
    if run.Empty? {
    } else {
      TogetherOverRuns(c, start, run.before);
      CoupledIff(c, Run(c, start, run.before), run.last);
      OrphanIff(c, Run(c, start, run.before), run.last);
    }
  }

  // ----- A record without a face id

  /** A record of the st_auth engine in use has a face id that the next attempt can read. */
  predicate FaceIdReady(c: Setup, s: State) {
    c.authAvailable && s.record.userId >= 0 && s.record.engine == EngineName(c) ==> AuthEngine.FaceIdOf(s.faceId).Some?
  }

  /**
   The steps that leave such a record without one: an enrolment that succeeds with a negative face id, and the owner's
   removal that does not delete the record, because the face id goes first whatever the engine answers.
   */
  predicate LosesFaceId(c: Setup, s: State, step: Step) {
    match step.op
    case Enroll(challenge, _, e) =>
      && c.authAvailable && EnrollRefusal(s, step.session, challenge, e).None? && EnrolSucceeds(c, e)
      && AuthEngine.EnrolledFaceId(e.answers) < 0
    case RemoveEnrollments(ids, m, unlinked) =>
      && c.authAvailable && s.record.engine == EngineName(c) && OwnersRemoval(s, step.session, ids)
      && !(m.reported && unlinked)
    case _ => false
  }

  lemma EnrolledAuthFaceId(c: Setup, s: State, x: Session, e: EnrollEnv)
    requires c.authAvailable && x.user >= 0 && s.record.userId < 0
    ensures FaceIdReady(c, EnrolledAuth(c, s, x, e)) <==>
            !(e.configured && AuthEngine.EnrollOutcome(e.answers).Done? && e.saving.Saved? &&
              AuthEngine.EnrolledFaceId(e.answers) < 0)
  {
    AuthEngine.FaceIdRoundTrip(AuthEngine.EnrolledFaceId(e.answers));
  }

  lemma EnrolledFaceIdIff(c: Setup, s: State, step: Step)
    requires step.op.Enroll? && FaceIdReady(c, s) && Legal(s, step)
    ensures FaceIdReady(c, Next(c, s, step)) <==> !LosesFaceId(c, s, step)
  {
    var Enroll(challenge, preview, e) := step.op;
    if c.authAvailable && EnrollRefusal(s, step.session, challenge, e).None? {
      EnrolledAuthFaceId(c, s.(camera := Camera.Started(s.camera, preview, e.camera)), step.session, e);
    }
  }

  lemma FaceIdIff(c: Setup, s: State, step: Step)
    requires FaceIdReady(c, s) && Legal(s, step)
    ensures FaceIdReady(c, Next(c, s, step)) <==> !LosesFaceId(c, s, step)
  {
    match step.op {
      case Enroll(challenge, preview, e) => EnrolledFaceIdIff(c, s, step);
      case RemoveEnrollments(ids, m, unlinked) => RemovalData(c, s, step.session, ids, m, unlinked);
      case _ => OtherData(c, s, step.session, step.op);
    }
  }

  predicate NeverLosesFaceId(c: Setup, start: State, run: Trace<Step>) {
    match run
    case Empty => true
    case Then(before, step) => NeverLosesFaceId(c, start, before) && !LosesFaceId(c, Run(c, start, before), step)
  }

  /** Without such steps, every st_auth record of the engine in use can be authenticated against, in every state. */
  lemma {:induction false} FaceIdOverRuns(c: Setup, start: State, run: Trace<Step>)
    requires FaceIdReady(c, start) && LegalRun(c, start, run) && NeverLosesFaceId(c, start, run)
    ensures FaceIdReady(c, Run(c, start, run))
  {
    if run.Empty? {
    } else {
      FaceIdOverRuns(c, start, run.before);
      FaceIdIff(c, Run(c, start, run.before), run.last);
    }
  }

  /** After the owner's removal fails with the st_auth engine, the enrolment is still listed, and no attempt unlocks. */
  lemma FailedRemovalDisables(c: Setup, s: State, x: Session, ids: seq<int>, m: Removal, unlinked: bool, e: AuthEnv)
    requires c.authAvailable && OwnersRemoval(s, x, ids) && !m.reported
    ensures var after := Perform(c, s, x, RemoveEnrollments(ids, m, unlinked));
            && after.trace.last.call == OnError(UNABLE_TO_REMOVE)
            && Perform(c, after, x, EnumerateEnrollments).trace.last.call ==
               EnrollmentsEnumerated([s.record.enrollmentId])
            && !Unlocks(Authenticated(c, after, x, e))
  {
    UnlockSucceedsIff(c, Perform(c, s, x, RemoveEnrollments(ids, m, unlinked)), x, e);
  }

  /** Some record exists after every step. */
  predicate KeepsRecord(c: Setup, start: State, run: Trace<Step>) {
    match run
    case Empty => true
    case Then(before, step) => KeepsRecord(c, start, before) && Run(c, start, run).record.userId >= 0
  }

  lemma StepStaysDisabled(c: Setup, s: State, step: Step)
    requires c.authAvailable && s.record.userId >= 0 && AuthEngine.FaceIdOf(s.faceId).None?
    ensures AuthEngine.FaceIdOf(Next(c, s, step).faceId).None?
  {
    match step.op {
      case Enroll(challenge, preview, e) =>
      case RemoveEnrollments(ids, m, unlinked) => RemovalData(c, s, step.session, ids, m, unlinked);
      case _ => OtherData(c, s, step.session, step.op);
    }
  }

  /** An st_auth record without a readable face id stays without one, and useless, until the record itself is gone. */
  lemma {:induction false} DisabledUntilDeleted(c: Setup, start: State, run: Trace<Step>, x: Session, e: AuthEnv)
    requires c.authAvailable && start.record.userId >= 0 && AuthEngine.FaceIdOf(start.faceId).None?
    requires KeepsRecord(c, start, run)
    ensures AuthEngine.FaceIdOf(Run(c, start, run).faceId).None? && !Unlocks(Authenticated(c, Run(c, start, run), x, e))
  {
    if run.Then? {
      DisabledUntilDeleted(c, start, run.before, x, e);
      StepStaysDisabled(c, Run(c, start, run.before), run.last);
    }
    UnlockSucceedsIff(c, Run(c, start, run), x, e);
  }

  // ----- A record whose template is gone, with the trusted app

  /** The trusted app compares, somebody is enrolled, and there is no template. */
  predicate Stuck(c: Setup, s: State) {
    !c.authAvailable && c.useTee && s.record.userId >= 0 && s.template.None?
  }

  /** The ways out: the owner's removal reports success and deletes the record, or a failed write loses the record. */
  predicate Escapes(s: State, step: Step) {
    || LosesRecord(s, step.session, step.op)
    || (step.op.RemoveEnrollments? && OwnersRemoval(s, step.session, step.op.ids) &&
        step.op.removal.reported && step.op.unlinked)
  }

  /** A broken removal leads there, and nothing but these ways leads out again. */
  lemma StuckIff(c: Setup, s: State, step: Step)
    requires Legal(s, step) && !c.authAvailable && c.useTee && s.record.userId >= 0
    ensures Breaks(s, step) ==> Stuck(c, Next(c, s, step))
    ensures Stuck(c, s) ==> (Stuck(c, Next(c, s, step)) <==> !Escapes(s, step))
    ensures Stuck(c, s) && !Escapes(s, step) ==> SameEnrolment(Next(c, s, step).record, s.record)
  {
    match step.op {
      case Enroll(challenge, preview, e) =>
      case RemoveEnrollments(ids, m, unlinked) => RemovalData(c, s, step.session, ids, m, unlinked);
      case _ => OtherData(c, s, step.session, step.op);
    }
  }

  /** The trusted app answers a removal from an empty slot with an error, and no write loses the record file. */
  predicate EmptySlotFails(s: State, step: Step) {
    && !LosesRecord(s, step.session, step.op)
    && (step.op.RemoveEnrollments? && OwnersRemoval(s, step.session, step.op.ids) && s.template.None? ==>
          !step.op.removal.reported)
  }

  predicate EmptySlotsFail(c: Setup, start: State, run: Trace<Step>) {
    match run
    case Empty => true
    case Then(before, step) => EmptySlotsFail(c, start, before) && EmptySlotFails(Run(c, start, before), step)
  }

  /**
   As long as that is how the app and the file system behave, the state lasts for good: the same enrolment stays listed,
   its owner's removals and everybody's enrolments end in an error.
   */
  lemma {:induction false} StuckForGood(c: Setup, start: State, run: Trace<Step>, step: Step)
    requires Stuck(c, start) && LegalRun(c, start, run) && EmptySlotsFail(c, start, run)
    requires Legal(Run(c, start, run), step) && EmptySlotFails(Run(c, start, run), step)
    ensures var s := Run(c, start, run);
            && Stuck(c, s) && SameEnrolment(s.record, start.record)
            && (step.op.Enroll? || (step.op.RemoveEnrollments? && OwnersRemoval(s, step.session, step.op.ids)) ==>
                  var r := Next(c, s, step); r.trace.Then? && r.trace.before == s.trace && r.trace.last.call.OnError?)
  {
    if run.Empty? {
    } else {
      StuckForGood(c, start, run.before, run.last);
      StuckIff(c, Run(c, start, run.before), run.last);
    }
    if step.op.Enroll? || (step.op.RemoveEnrollments? && OwnersRemoval(Run(c, start, run), step.session, step.op.ids)) {
      StuckRefuses(c, Run(c, start, run), step);
    }
  }

  lemma StuckRefuses(c: Setup, s: State, step: Step)
    requires Stuck(c, s) && EmptySlotFails(s, step)
    requires step.op.Enroll? || (step.op.RemoveEnrollments? && OwnersRemoval(s, step.session, step.op.ids))
    ensures var r := Next(c, s, step); r.trace.Then? && r.trace.before == s.trace && r.trace.last.call.OnError?
  {
  }

  // ----- From process to process

  predicate Tidy(c: Setup, start: State, lives: Trace<Life>) {
    match lives
    case Empty => true
    case Then(before, life) =>
      var s := Rebooted(Lived(c, start, before), life.now);
      && Tidy(c, start, before)
      && NeverBreaks(c, s, life.run) && NeverOrphans(c, s, life.run) && NeverLosesFaceId(c, s, life.run)
  }

  /** What is on disk stays in order through any number of processes, as long as none of these steps disturbs it. */
  lemma {:induction false} DiskOverLives(c: Setup, start: State, lives: Trace<Life>)
    requires Coupled(start) && NoOrphan(start) && FaceIdReady(c, start)
    requires LegalLives(c, start, lives) && Tidy(c, start, lives)
    ensures var s := Lived(c, start, lives); Coupled(s) && NoOrphan(s) && FaceIdReady(c, s)
  {
    if lives.Empty? {
    } else {
      DiskOverLives(c, start, lives.before);
      var s := Rebooted(Lived(c, start, lives.before), lives.last.now);
      TogetherOverRuns(c, s, lives.last.run);
      FaceIdOverRuns(c, s, lives.last.run);
    }
  }
}
