/**
 Who owns what over whole runs: the record, the template and the lockout of an enrolled user, and the pairing of
 record and template.
 */
module FaceHalOwnership {
  import opened Wrappers
  import opened Callbacks
  import opened Traces
  import opened EnrollmentRecord
  import opened FaceHal
  import opened FaceHalLockout
  import opened FaceHalReports
  import Camera
  import AuthLoop

  // ----- Non-interference

  /**
   While user u is enrolled, no operation of another user's session changes the record, the template, the face id or
   u's lockout entry.
   */
  lemma OthersChangeNothing(c: Setup, s: State, step: Step, u: int)
    requires s.record.userId == u >= 0 && step.session.user != u
    ensures var r := Next(c, s, step);
            && r.record == s.record && r.enrolled == s.enrolled
            && r.template == s.template && r.faceId == s.faceId
            && (u in r.lockouts <==> u in s.lockouts) && (u in s.lockouts ==> r.lockouts[u] == s.lockouts[u])
  {
  }

  /** `later` continues `earlier` by steps of other users' sessions. */
  predicate ContinuesWithout(earlier: Trace<Step>, later: Trace<Step>, u: int) {
    earlier == later || (later.Then? && later.last.session.user != u && ContinuesWithout(earlier, later.before, u))
  }

  /** However long the other users' sessions go on, an enrolled user's record, template and lockout stay as they are. */
  lemma {:induction false} OthersNeverInterfere(c: Setup, start: State, earlier: Trace<Step>, later: Trace<Step>,
                                                u: int)
    requires Run(c, start, earlier).record.userId == u >= 0 && ContinuesWithout(earlier, later, u)
    ensures var s, r := Run(c, start, earlier), Run(c, start, later);
            && r.record == s.record && r.enrolled == s.enrolled
            && r.template == s.template && r.faceId == s.faceId
            && (u in r.lockouts <==> u in s.lockouts) && (u in s.lockouts ==> r.lockouts[u] == s.lockouts[u])
  {
    if earlier == later {
    } else {
      OthersNeverInterfere(c, start, earlier, later.before, u);
      OthersChangeNothing(c, Run(c, start, later.before), later.last, u);
    }
  }

  // ----- What each operation does to the stored data

  /** An attempt changes neither the record nor the template nor any challenge. */
  lemma AuthenticatedKeeps(c: Setup, s: State, x: Session, e: AuthEnv)
    ensures SameData(s, Authenticated(c, s, x, e))
  {
    var quiet, during, verdict, f := AuthenticatedTold(c, s, x, e);
  }

  /** The owner's removal of the enrolment. */
  predicate OwnersRemoval(s: State, x: Session, ids: seq<int>) {
    s.record.userId == x.user && s.record.enrollmentId in ids
  }

  /** A removal takes the template and the record separately. */
  lemma RemovalData(c: Setup, s: State, x: Session, ids: seq<int>, m: Removal, unlinked: bool)
    ensures var r := EnrollmentsRemovedBy(c, s, x, ids, m, unlinked);
            if OwnersRemoval(s, x, ids)
            then && r.record == (if m.reported && unlinked then NO_ENROLLMENT else s.record)
                 && r.template == (if m.gone then None else s.template)
                 && r.faceId == (if c.authAvailable then None else s.faceId) && r.enrolled == s.enrolled
            else SameData(s, r)
  {
  }

  /** The same enrolment: nothing but the attention flag and the authenticator id may differ. */
  predicate SameEnrolment(a: Enrollment, b: Enrollment) {
    a.userId == b.userId && a.enrollmentId == b.enrollmentId && a.engine == b.engine
  }

  /** The owner rewrites the record file, and the write fails and leaves no file. */
  predicate LosesRecord(s: State, x: Session, op: Operation) {
    match op
    case SetFeature(isAttention, _, saving) => s.record.userId == x.user && isAttention && saving.Lost?
    case InvalidateAuthenticatorId(_, saving) => s.record.userId == x.user && saving.Lost?
    case _ => false
  }

  /** Every operation but enrolment and removal keeps the template, and the enrolment unless the record is lost. */
  predicate KeepsEnrolment(s: State, r: State, lost: bool) {
    && r.enrolled == s.enrolled && r.template == s.template && r.faceId == s.faceId
    && if lost then r.record == NO_ENROLLMENT else SameEnrolment(r.record, s.record)
  }

  lemma FeatureSetData(s: State, x: Session, isAttention: bool, enabled: bool, saving: Saving)
    ensures KeepsEnrolment(s, FeatureSetTo(s, x, isAttention, enabled, saving),
                           s.record.userId == x.user && isAttention && saving.Lost?)
  {
  }

  lemma InvalidationData(s: State, x: Session, newId: int, saving: Saving)
    ensures KeepsEnrolment(s, Invalidated(s, x, newId, saving), s.record.userId == x.user && saving.Lost?)
  {
  }

  lemma OtherData(c: Setup, s: State, x: Session, op: Operation)
    requires !op.Enroll? && !op.RemoveEnrollments?
    ensures KeepsEnrolment(s, Perform(c, s, x, op), LosesRecord(s, x, op))
  {
    match op {
      case Authenticate(e) => AuthenticatedKeeps(c, s, x, e);
      case SetFeature(isAttention, enabled, saving) => FeatureSetData(s, x, isAttention, enabled, saving);
      case InvalidateAuthenticatorId(newId, saving) => InvalidationData(s, x, newId, saving);
      case _ =>
    }
  }

  // ----- Record and template

  /** An existing record has a stored template: the feature of the enrolment that created it, of the same user. */
  predicate Coupled(s: State) {
    s.record.userId >= 0 ==> s.template == Some(Template(s.enrolled, s.record.userId))
  }

  /** The owner removes the enrolment, the template goes, and yet the record file stays. */
  predicate Breaks(s: State, step: Step) {
    && step.op.RemoveEnrollments? && OwnersRemoval(s, step.session, step.op.ids)
    && step.op.removal.gone && !(step.op.removal.reported && step.op.unlinked)
  }

  lemma EnrolledCvCouples(c: Setup, s: State, x: Session, e: EnrollEnv)
    requires x.user >= 0 && s.record.userId < 0
    ensures Coupled(EnrolledCv(c, s, x, e))
  {
  }

  lemma EnrolledAuthCouples(c: Setup, s: State, x: Session, e: EnrollEnv)
    requires x.user >= 0 && s.record.userId < 0
    ensures Coupled(EnrolledAuth(c, s, x, e))
  {
  }

  /** An enrolment that finds nobody enrolled leaves no record without its template; any other changes neither. */
  lemma EnrolledCouples(c: Setup, s: State, x: Session, challenge: int, preview: bool, e: EnrollEnv)
    requires x.user >= 0
    ensures var r := Enrolled(c, s, x, challenge, preview, e);
            if s.record.userId < 0 then Coupled(r)
            else r.record == s.record && r.enrolled == s.enrolled && r.template == s.template
  {
    if EnrollRefusal(s, x, challenge, e).None? {
      var s1 := s.(camera := Camera.Started(s.camera, preview, e.camera));
      if c.authAvailable { EnrolledAuthCouples(c, s1, x, e); } else { EnrolledCvCouples(c, s1, x, e); }
    }
  }

  /**
   A step loses the pairing of record and template exactly when it is the owner's removal that takes the template
   but not the record: the template is gone although its removal reported failure, or the record file cannot be
   deleted.
   */
  lemma CoupledIff(c: Setup, s: State, step: Step)
    requires Coupled(s) && Legal(s, step)
    ensures Coupled(Next(c, s, step)) <==> !Breaks(s, step)
  {
    match step.op {
      case Enroll(challenge, preview, e) => EnrolledCouples(c, s, step.session, challenge, preview, e);
      case RemoveEnrollments(ids, m, unlinked) => RemovalData(c, s, step.session, ids, m, unlinked);
      case _ => OtherData(c, s, step.session, step.op);
    }
  }

  predicate NeverBreaks(c: Setup, start: State, run: Trace<Step>) {
    match run
    case Empty => true
    case Then(before, step) => NeverBreaks(c, start, before) && !Breaks(Run(c, start, before), step)
  }

  /** Where a process starts with record and template paired, they are paired in every state without such a removal. */
  lemma {:induction false} CoupledOverRuns(c: Setup, start: State, run: Trace<Step>)
    requires Coupled(start) && LegalRun(c, start, run) && NeverBreaks(c, start, run)
    ensures Coupled(Run(c, start, run))
  {
    if run.Empty? {
    } else {
      CoupledOverRuns(c, start, run.before);
      CoupledIff(c, Run(c, start, run.before), run.last);
    }
  }

  /** Without any assumption on removals: a template beside a record is that of the record's own enrolment and user. */
  predicate OwnTemplate(s: State) {
    s.record.userId >= 0 && s.template.Some? ==> Coupled(s)
  }

  lemma StepKeepsOwnTemplate(c: Setup, s: State, step: Step)
    requires OwnTemplate(s) && Legal(s, step)
    ensures OwnTemplate(Next(c, s, step))
  {
    match step.op {
      case Enroll(challenge, preview, e) => EnrolledCouples(c, s, step.session, challenge, preview, e);
      case RemoveEnrollments(ids, m, unlinked) => RemovalData(c, s, step.session, ids, m, unlinked);
      case _ => OtherData(c, s, step.session, step.op);
    }
  }

  lemma {:induction false} OwnTemplateOverRuns(c: Setup, start: State, run: Trace<Step>)
    requires OwnTemplate(start) && LegalRun(c, start, run)
    ensures OwnTemplate(Run(c, start, run))
  {
    if run.Empty? {
    } else {
      OwnTemplateOverRuns(c, start, run.before);
      StepKeepsOwnTemplate(c, Run(c, start, run.before), run.last);
    }
  }

  /** Through any number of processes, each starting from what the ones before it left on disk. */
  lemma {:induction false} OwnTemplateOverLives(c: Setup, start: State, lives: Trace<Life>)
    requires OwnTemplate(start) && LegalLives(c, start, lives)
    ensures OwnTemplate(Lived(c, start, lives))
  {
    if lives.Empty? {
    } else {
      OwnTemplateOverLives(c, start, lives.before);
      OwnTemplateOverRuns(c, Rebooted(Lived(c, start, lives.before), lives.last.now), lives.last.run);
    }
  }

  /** An engine outside this process compares, with whatever template it holds. */
  predicate ComparesElsewhere(c: Setup) {
    c.authAvailable || c.useTee
  }

  /**
   In every state that a process reaches from its own user's data, an attempt that compares a frame compares it with
   the template that its own user enrolled, if there is a template; and there is one when this process does the
   comparing, or when no removal has broken the pairing.
   */
  lemma ComparisonsAreOwners(c: Setup, start: State, run: Trace<Step>, x: Session, e: AuthEnv)
    requires OwnTemplate(start) && LegalRun(c, start, run) && x.user >= 0
    requires Compares(c, Run(c, start, run), x, e)
    ensures var s := Run(c, start, run);
            && (s.template.Some? ==> s.template == Some(Template(s.enrolled, x.user)))
            && (!ComparesElsewhere(c) || (Coupled(start) && NeverBreaks(c, start, run)) ==> s.template.Some?)
  {
    OwnTemplateOverRuns(c, start, run);
    if Coupled(start) && NeverBreaks(c, start, run) {
      CoupledOverRuns(c, start, run);
    } else if !ComparesElsewhere(c) {
      AuthLoop.AnyScoredIsExists(Attempt(c, Run(c, start, run), e), e.frames, |e.frames|);
    }
  }

  // ----- Without a template

  /** The last callback so far is an error or a lockout. */
  predicate Refuses(s: State) {
    s.trace.Then? &&
    (s.trace.last.call.OnError? || s.trace.last.call.LockoutTimed? || s.trace.last.call.LockoutPermanent?)
  }

  /**
   Where the process compares by itself, a missing template means neither an unlock nor a counted failure. (The
   trusted app and the st_auth engine are asked whether or not they have a template, and may answer anything.)
   */
  lemma NoTemplateNoVerdict(c: Setup, s: State, x: Session, e: AuthEnv, user: int)
    requires !ComparesElsewhere(c) && s.template.None?
    ensures SameLockout(s, Authenticated(c, s, x, e), user) && Refuses(Authenticated(c, s, x, e))
  {
    AuthLoop.AnyScoredIsExists(Attempt(c, s, e), e.frames, |e.frames|);
    var quiet, during, verdict, f := AuthenticatedTold(c, s, x, e);
    QuietFails(s.trace, x, s.clock, quiet, during, user);
  }
}
