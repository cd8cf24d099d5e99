/**
 What the callbacks alone tell: every unlock a user is told of goes back to an enrolment that the same user was told
 was finished, with no removal of it reported in between.
 */
module FaceHalHistory {
  import opened Wrappers
  import opened Callbacks
  import opened Traces
  import opened EnrollmentRecord
  import opened FaceHal
  import opened FaceHalOwnership
  import opened FaceHalReports
  import AuthEngine
  import AuthLoop
  import Camera

  /** An enrolment as its user knows it. */
  datatype Known = Known(user: int, id: int)

  function KnownIn(e: Enrollment): Option<Known> {
    if e.userId < 0 then None else Some(Known(e.userId, e.enrollmentId))
  }

  /** The enrolment that stands after a trace: the last one reported finished, unless its removal was reported too. */
  function Standing(trace: Trace<Event>, initial: Option<Known>): Option<Known> {
    match trace
    case Empty => initial
    case Then(before, e) =>
      var k := Standing(before, initial);
      match e.call
      case EnrollmentProgress(id, remaining) => if remaining == 0 then Some(Known(e.session.user, id)) else k
      case EnrollmentsRemoved(ids) => if k.Some? && k.value.user == e.session.user && k.value.id in ids then None else k
      case _ => k
  }

  /** Every unlock in the trace names the enrolment that stood when it was reported. */
  predicate Justified(trace: Trace<Event>, initial: Option<Known>) {
    match trace
    case Empty => true
    case Then(before, e) =>
      && Justified(before, initial)
      && (e.call.AuthenticationSucceeded? ==> Standing(before, initial) == Some(Known(e.session.user, e.call.enrolled)))
  }

  /** Nothing is left to unlock with, as far as the face id or this process' own look at the template can tell. */
  predicate Spent(c: Setup, s: State) {
    if c.authAvailable then AuthEngine.FaceIdOf(s.faceId).None? else !c.useTee && s.template.None?
  }

  /** The record is the enrolment that stands. */
  predicate Stands(s: State, initial: Option<Known>) {
    s.record.userId >= 0 ==> Standing(s.trace, initial) == KnownIn(s.record)
  }

  /** It is, or its removal was reported and what is left cannot unlock. */
  predicate Agrees(c: Setup, s: State, initial: Option<Known>) {
    Stands(s, initial) || (Standing(s.trace, initial).None? && Spent(c, s))
  }

  /** The owner is told of the removal, although the record file could not be deleted. */
  predicate FalselyRemoves(s: State, step: Step) {
    && step.op.RemoveEnrollments? && OwnersRemoval(s, step.session, step.op.ids)
    && step.op.removal.reported && !step.op.unlinked
  }

  /** The trusted app compares, with a template that only it sees. */
  predicate AppCompares(c: Setup) {
    !c.authAvailable && c.useTee
  }

  // ----- What traces tell

  lemma {:induction false} QuietHistory(trace: Trace<Event>, x: Session, at: int, calls: Trace<Callback>,
                                        held: Camera.Handles, initial: Option<Known>)
    requires Quiet(calls)
    ensures Standing(Extended(trace, x, at, calls, held), initial) == Standing(trace, initial)
    ensures Justified(Extended(trace, x, at, calls, held), initial) == Justified(trace, initial)
  {
    if calls.Empty? {
    } else {
      QuietHistory(trace, x, at, calls.before, held, initial);
    }
  }

  /** An enrolment keeps the record standing, and justifies or discredits no unlock. */
  lemma EnrolledHistory(c: Setup, s: State, x: Session, challenge: int, preview: bool, e: EnrollEnv,
                        initial: Option<Known>)
    requires x.user >= 0
    ensures var r := Enrolled(c, s, x, challenge, preview, e);
            && (Stands(s, initial) ==> Stands(r, initial)) && (Agrees(c, s, initial) ==> Agrees(c, r, initial))
            && Justified(r.trace, initial) == Justified(s.trace, initial)
  {
    var quiet, during, f := EnrolledTold(c, s, x, challenge, preview, e);
    QuietHistory(s.trace, x, s.clock, quiet, during, initial);
  }

  lemma EndHistory(s: State, r: State, trace: Trace<Event>, x: Session, e: AuthEnv, verdict: Option<Verdict>, f: Final,
                   initial: Option<Known>)
    requires AttemptEnds(s, r, x, e, verdict, f)
    ensures Standing(Closed(trace, f), initial) == Standing(trace, initial)
    ensures Justified(Closed(trace, f), initial) <==>
            Justified(trace, initial) &&
            (verdict == Some(Succeeded) ==> Standing(trace, initial) == Some(Known(x.user, s.record.enrollmentId)))
  {
  }

  /** An attempt keeps the history justified exactly unless it unlocks while its own enrolment does not stand. */
  lemma AttemptJustifiedIff(c: Setup, s: State, x: Session, e: AuthEnv, initial: Option<Known>)
    ensures var r := Authenticated(c, s, x, e);
            && Standing(r.trace, initial) == Standing(s.trace, initial)
            && (Justified(r.trace, initial) <==>
                Justified(s.trace, initial) &&
                (UnlockGranted(c, s, x, e) ==>
                   Standing(s.trace, initial) == Some(Known(x.user, s.record.enrollmentId))))
  {
    var quiet, during, verdict, f := AuthenticatedTold(c, s, x, e);
    QuietHistory(s.trace, x, s.clock, quiet, during, initial);
    EndHistory(s, Authenticated(c, s, x, e), Extended(s.trace, x, s.clock, quiet, during), x, e, verdict, f, initial);
  }

  /** Whatever cannot unlock is not granted an unlock. */
  lemma SpentNeverUnlocks(c: Setup, s: State, x: Session, e: AuthEnv)
    requires Spent(c, s)
    ensures !UnlockGranted(c, s, x, e)
  {
    if !c.authAvailable { AuthLoop.VerdictMeaning(Attempt(c, s, e), e.frames, e.cancelled); }
  }

  lemma AuthenticatedHistory(c: Setup, s: State, x: Session, e: AuthEnv, initial: Option<Known>)
    requires x.user >= 0
    ensures var r := Authenticated(c, s, x, e);
            && (Stands(s, initial) ==> Stands(r, initial)) && (Agrees(c, s, initial) ==> Agrees(c, r, initial))
            && (Agrees(c, s, initial) && Justified(s.trace, initial) ==> Justified(r.trace, initial))
  {
    AttemptJustifiedIff(c, s, x, e, initial);
    AuthenticatedKeeps(c, s, x, e);
    if Spent(c, s) { SpentNeverUnlocks(c, s, x, e); }
  }

  // ----- Every step

  lemma RemovalHistory(c: Setup, s: State, step: Step, initial: Option<Known>)
    requires step.op.RemoveEnrollments? && Legal(s, step)
    ensures var r := Next(c, s, step);
            && (Stands(s, initial) ==> (Stands(r, initial) <==> !FalselyRemoves(s, step)))
            && (Agrees(c, s, initial) && (AppCompares(c) ==> !FalselyRemoves(s, step)) ==> Agrees(c, r, initial))
            && Justified(r.trace, initial) == Justified(s.trace, initial)
  {
    RemovalReports(c, s, step.session, step.op.ids, step.op.removal, step.op.unlinked);
    RemovalData(c, s, step.session, step.op.ids, step.op.removal, step.op.unlinked);
  }

  lemma ReportsHistory(c: Setup, s: State, r: State, x: Session, op: Operation, initial: Option<Known>)
    requires !op.Enroll? && !op.Authenticate? && !op.RemoveEnrollments?
    requires KeepsEnrolment(s, r, LosesRecord(s, x, op))
    requires r.trace == Then(s.trace, Event(x, s.clock, OtherCall(s, x, op), s.camera))
    ensures Stands(s, initial) ==> Stands(r, initial)
    ensures Agrees(c, s, initial) ==> Agrees(c, r, initial)
    ensures Justified(r.trace, initial) == Justified(s.trace, initial)
  {
  }

  lemma OtherHistory(c: Setup, s: State, x: Session, op: Operation, initial: Option<Known>)
    requires !op.Enroll? && !op.Authenticate? && !op.RemoveEnrollments?
    ensures var r := Perform(c, s, x, op);
            && (Stands(s, initial) ==> Stands(r, initial)) && (Agrees(c, s, initial) ==> Agrees(c, r, initial))
            && Justified(r.trace, initial) == Justified(s.trace, initial)
  {
    OtherData(c, s, x, op);
    OtherTrace(c, s, x, op);
    ReportsHistory(c, s, Perform(c, s, x, op), x, op, initial);
  }

  /**
   A step leaves a record that does not stand exactly when it is an owner's removal that is reported although the
   record file could not be deleted.
   */
  lemma StandsIff(c: Setup, s: State, step: Step, initial: Option<Known>)
    requires Legal(s, step) && Stands(s, initial)
    ensures Stands(Next(c, s, step), initial) <==> !FalselyRemoves(s, step)
  {
    match step.op {
      case Enroll(challenge, preview, e) => EnrolledHistory(c, s, step.session, challenge, preview, e, initial);
      case Authenticate(e) => AuthenticatedHistory(c, s, step.session, e, initial);
      case RemoveEnrollments(ids, m, unlinked) => RemovalHistory(c, s, step, initial);
      case _ => OtherHistory(c, s, step.session, step.op, initial);
    }
  }

  /** Unless the trusted app compares and is left with a removed record, agreement and justification last. */
  lemma StepHistory(c: Setup, s: State, step: Step, initial: Option<Known>)
    requires Legal(s, step) && Agrees(c, s, initial)
    requires AppCompares(c) ==> !FalselyRemoves(s, step)
    ensures var r := Next(c, s, step);
            Agrees(c, r, initial) && (Justified(s.trace, initial) ==> Justified(r.trace, initial))
  {
    match step.op {
      case Enroll(challenge, preview, e) => EnrolledHistory(c, s, step.session, challenge, preview, e, initial);
      case Authenticate(e) => AuthenticatedHistory(c, s, step.session, e, initial);
      case RemoveEnrollments(ids, m, unlinked) => RemovalHistory(c, s, step, initial);
      case _ => OtherHistory(c, s, step.session, step.op, initial);
    }
  }

  // ----- Every run

  predicate NeverFalselyRemoves(c: Setup, start: State, run: Trace<Step>) {
    match run
    case Empty => true
    case Then(before, step) =>
      NeverFalselyRemoves(c, start, before) && !FalselyRemoves(Run(c, start, before), step)
  }

  /**
   Over every run of a process: each onAuthenticationSucceeded of a user names an enrolment that the same user's
   session reported finished (or that was on record when the process started), the last one finished before the
   unlock, and whose removal that user was not told of in between. Where the trusted app compares, this needs that no
   removal was reported whose record could not be deleted (see RemovedUnlocks).
   */
  lemma {:induction false} UnlocksAreEnrolled(c: Setup, start: State, run: Trace<Step>)
    requires Booted(start) && LegalRun(c, start, run)
    requires AppCompares(c) ==> NeverFalselyRemoves(c, start, run)
    ensures Agrees(c, Run(c, start, run), KnownIn(start.record))
    ensures Justified(Run(c, start, run).trace, KnownIn(start.record))
  {
    if run.Empty? {
    } else {
      UnlocksAreEnrolled(c, start, run.before);
      StepHistory(c, Run(c, start, run.before), run.last, KnownIn(start.record));
    }
  }

  // ----- A removed face that still unlocks

  /** After a removal that is reported but leaves the record, any attempt that the answers grant is unjustified. */
  lemma RemovedUnlocksAgain(c: Setup, s: State, step: Step, x: Session, e: AuthEnv, initial: Option<Known>)
    requires Legal(s, step) && Stands(s, initial) && FalselyRemoves(s, step)
    requires UnlockGranted(c, Next(c, s, step), x, e)
    ensures AppCompares(c) && !Justified(Authenticated(c, Next(c, s, step), x, e).trace, initial)
  {
    var after := Next(c, s, step);
    RemovalData(c, s, step.session, step.op.ids, step.op.removal, step.op.unlinked);
    StandsIff(c, s, step, initial);
    AttemptJustifiedIff(c, after, x, e, initial);
    RemovalHistory(c, s, step, initial);
    if !AppCompares(c) { SpentNeverUnlocks(c, after, x, e); }
  }

  /** Concretely, with the trusted app: user 0 removes enrolment 7, is told so, and then unlocks with it. */
  lemma RemovedUnlocks()
    ensures exists start: State, run: Trace<Step> ::
              && Booted(start) && LegalRun(Setup(true, false), start, run)
              && !Justified(Run(Setup(true, false), start, run).trace, KnownIn(start.record))
  {
    var c, x := Setup(true, false), Session(1, 0);
    var start := State(Enrollment(0, 7, 1, true, CV_ENGINE), [1], Some(Template([1], 0)), None, map[], map[],
                       Camera.NO_HANDLES, 0, Trace.Empty);
    var step := Step(x, RemoveEnrollments([7], Removal(true, true), false), 0);
    var face := AuthLoop.Face(true, [1], 0.0, Some(1.0));
    var e := AuthEnv(0, true, Camera.StartOutcome(true, true, true, true, true, true, true, true, true), 0, false,
                     [AuthLoop.Frame(Some(face), None, 0)], true, [], 0, 0);
    var after := Next(c, start, step);
    assert AuthLoop.FaceAt(Attempt(c, after, e), e.frames, 0) == Some(face);
    assert AuthLoop.Accepts(Attempt(c, after, e), e.frames, 0);
    assert UnlockGranted(c, after, x, e);
    RemovedUnlocksAgain(c, start, step, x, e, KnownIn(start.record));
    var run := Then(Then(Trace.Empty, step), Step(x, Authenticate(e), 0));
    assert LegalRun(c, start, run.before);
    assert LegalRun(c, start, run);
  }
}
