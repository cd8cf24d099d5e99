/** Lockout over whole runs: any users, any sessions, any interleaving of their operations. */
module FaceHalLockout {
  import opened Wrappers
  import opened Callbacks
  import opened Traces
  import opened FaceHal
  import opened FaceHalReports
  import Camera

  // ----- What a trace says about a user

  /** When the user's attempts failed, since the user's last success or lockout reset. */
  function FailTimes(trace: Trace<Event>, user: int): seq<int> {
    match trace
    case Empty => []
    case Then(before, e) =>
      if e.session.user != user then FailTimes(before, user)
      else if e.call.AuthenticationSucceeded? || e.call.LockoutCleared? then []
      else if e.call.AuthenticationFailed? then FailTimes(before, user) + [e.at]
      else FailTimes(before, user)
  }

  /** Between the i-th and the j-th failure lie at least 30 s for every five failures in between (counted from 0). */
  predicate Spaced(times: seq<int>) {
    forall i, j :: 0 <= i < j < |times| ==>
      times[j] - times[i] >= LOCKOUT_DURATION * (j / LOCKOUT_TIMED_FAILURES - i / LOCKOUT_TIMED_FAILURES)
  }

  /** The tracker agrees with the failures seen, which are bounded in number and spaced; no lockout is too long. */
  predicate Tracks(t: Tracker, times: seq<int>, clock: int) {
    && t.failures == |times| <= LOCKOUT_PERMANENT_FAILURES
    && t.lockedUntil <= Max(0, clock + LOCKOUT_DURATION)
    && Spaced(times)
    && (forall i :: 0 <= i < |times| ==> times[i] <= clock)
    && (LOCKOUT_TIMED_FAILURES <= |times| < LOCKOUT_PERMANENT_FAILURES ==>
          t.lockedUntil >= times[|times| / LOCKOUT_TIMED_FAILURES * LOCKOUT_TIMED_FAILURES - 1] + LOCKOUT_DURATION)
  }

  predicate TracksUser(s: State, user: int) {
    Tracks(TrackerOf(s, user), FailTimes(s.trace, user), s.clock)
  }

  // ----- What leaves the count alone

  /** Frame-loop callbacks are no user's failures. */
  lemma {:induction false} QuietFails(trace: Trace<Event>, x: Session, at: int, calls: Trace<Callback>,
                                      held: Camera.Handles, user: int)
    requires Quiet(calls)
    ensures FailTimes(Extended(trace, x, at, calls, held), user) == FailTimes(trace, user)
  {
    if calls.Empty? {
    } else {
      QuietFails(trace, x, at, calls.before, held, user);
    }
  }

  /** The part of the state the lockout of a user depends on is the same. */
  predicate SameLockout(s: State, r: State, user: int) {
    TrackerOf(r, user) == TrackerOf(s, user) && FailTimes(r.trace, user) == FailTimes(s.trace, user)
  }

  lemma EnrolledSameLockout(c: Setup, s: State, x: Session, challenge: int, preview: bool, e: EnrollEnv, user: int)
    ensures SameLockout(s, Enrolled(c, s, x, challenge, preview, e), user)
  {
    var quiet, during, f := EnrolledTold(c, s, x, challenge, preview, e);
    QuietFails(s.trace, x, s.clock, quiet, during, user);
  }

  lemma ReportsSameLockout(s: State, r: State, x: Session, op: Operation, user: int)
    requires !op.Enroll? && !op.Authenticate? && !op.ResetLockout?
    requires OnlyReports(s, r, x, OtherCall(s, x, op))
    ensures SameLockout(s, r, user)
  {
  }

  /** No operation but an attempt or a reset of the user itself touches the user's lockout. */
  lemma OtherOperationSameLockout(c: Setup, s: State, x: Session, op: Operation, user: int)
    requires !op.Authenticate? && !(op.ResetLockout? && x.user == user)
    ensures SameLockout(s, Perform(c, s, x, op), user)
  {
    match op {
      case Enroll(challenge, preview, e) => EnrolledSameLockout(c, s, x, challenge, preview, e, user);
      case GenerateChallenge(challenge) =>
      case RevokeChallenge(challenge) =>
      case ResetLockout =>
      case _ =>
        OtherReports(c, s, x, op);
        ReportsSameLockout(s, Perform(c, s, x, op), x, op, user);
    }
  }

  // ----- Counting a failure

  /** One more failure, at a time when the tracker no longer locks, keeps the spacing. */
  lemma FailureTracked(t: Tracker, times: seq<int>, clock: int, checkedAt: int, failedAt: int, lockedAt: int)
    requires Tracks(t, times, clock) && !LockedOut(t, checkedAt)
    requires clock <= checkedAt <= failedAt <= lockedAt
    ensures Tracks(FailedTracker(t, lockedAt), times + [failedAt], lockedAt)
  {
    var n := |times|;
    var later := times + [failedAt];
    forall i, j | 0 <= i < j < |later|
      ensures later[j] - later[i] >= LOCKOUT_DURATION * (j / LOCKOUT_TIMED_FAILURES - i / LOCKOUT_TIMED_FAILURES)
    {
      if j == n {
        var k := n / LOCKOUT_TIMED_FAILURES * LOCKOUT_TIMED_FAILURES;
        if i < k {
          assert failedAt >= times[k - 1] + LOCKOUT_DURATION;
          assert (k - 1) / LOCKOUT_TIMED_FAILURES == n / LOCKOUT_TIMED_FAILURES - 1;
          if i < k - 1 {
            assert times[k - 1] - times[i] >=
                   LOCKOUT_DURATION * ((k - 1) / LOCKOUT_TIMED_FAILURES - i / LOCKOUT_TIMED_FAILURES);
          }
        } else {
          assert i / LOCKOUT_TIMED_FAILURES == n / LOCKOUT_TIMED_FAILURES;
        }
      }
    }
    var m := n + 1;
    if LOCKOUT_TIMED_FAILURES <= m < LOCKOUT_PERMANENT_FAILURES && m % LOCKOUT_TIMED_FAILURES != 0 {
      assert m / LOCKOUT_TIMED_FAILURES == n / LOCKOUT_TIMED_FAILURES;
    }
  }

  lemma LaterTracks(t: Tracker, times: seq<int>, clock: int, later: int)
    requires Tracks(t, times, clock) && clock <= later
    ensures Tracks(t, times, later)
  {
  }

  /** What an attempt ends with keeps every user's tracker right, provided a counted one was not locked out. */
  lemma EndTracks(s: State, r: State, x: Session, e: AuthEnv, verdict: Option<Verdict>, f: Final, ended: int, user: int)
    requires TracksUser(s, user) && LegalReadings(s, Authenticate(e), ended)
    requires AttemptEnds(s, r, x, e, verdict, f) && FailTimes(r.trace, user) == FailTimes(Closed(s.trace, f), user)
    requires Judged(verdict) ==> !LockedOut(TrackerOf(s, x.user), e.checkedAt)
    ensures TracksUser(r.(clock := ended), user)
  {
    LaterTracks(TrackerOf(s, user), FailTimes(s.trace, user), s.clock, ended);
    if user == x.user && verdict == Some(Failed) {
      CountedTracks(s, r, x, e, f, ended);
    }
  }

  lemma CountedTracks(s: State, r: State, x: Session, e: AuthEnv, f: Final, ended: int)
    requires TracksUser(s, x.user) && LegalReadings(s, Authenticate(e), ended)
    requires AttemptEnds(s, r, x, e, Some(Failed), f)
    requires FailTimes(r.trace, x.user) == FailTimes(Closed(s.trace, f), x.user)
    requires !LockedOut(TrackerOf(s, x.user), e.checkedAt)
    ensures TracksUser(r.(clock := ended), x.user)
  {
    var t, times := TrackerOf(s, x.user), FailTimes(s.trace, x.user);
    FailureTracked(t, times, s.clock, e.checkedAt, e.failedAt, e.lockedAt);
    LaterTracks(FailedTracker(t, e.lockedAt), times + [e.failedAt], e.lockedAt, ended);
    assert FailTimes(Closed(s.trace, f), x.user) == times + [e.failedAt];
  }

  /** Final events count the same after quiet callbacks. */
  lemma ClosedFails(before: Trace<Event>, after: Trace<Event>, f: Final, user: int)
    requires FailTimes(after, user) == FailTimes(before, user)
    ensures FailTimes(Closed(after, f), user) == FailTimes(Closed(before, f), user)
  {
  }

  lemma AuthenticatedTracks(c: Setup, s: State, x: Session, e: AuthEnv, ended: int, user: int)
    requires TracksUser(s, user) && LegalReadings(s, Authenticate(e), ended)
    ensures TracksUser(Authenticated(c, s, x, e).(clock := ended), user)
  {
    var quiet, during, verdict, f := AuthenticatedTold(c, s, x, e);
    QuietFails(s.trace, x, s.clock, quiet, during, user);
    ClosedFails(s.trace, Extended(s.trace, x, s.clock, quiet, during), f, user);
    EndTracks(s, Authenticated(c, s, x, e), x, e, verdict, f, ended, user);
  }

  /** A step that resets the user's lockout. */
  predicate Resets(step: Step, user: int) {
    step.op.ResetLockout? && step.session.user == user
  }

  lemma StepTracks(c: Setup, s: State, step: Step, user: int)
    requires TracksUser(s, user) && Legal(s, step)
    ensures TracksUser(Next(c, s, step), user)
  {
    var x := step.session;
    LaterTracks(TrackerOf(s, user), FailTimes(s.trace, user), s.clock, step.ended);
    if step.op.Authenticate? {
      AuthenticatedTracks(c, s, x, step.op.authEnv, step.ended, user);
    } else if Resets(step, user) {
    } else {
      OtherOperationSameLockout(c, s, x, step.op, user);
    }
  }

  /**
   In every state that any process reaches, and for every user: the stored failure count is the number of failures
   reported since the user's last success or reset, it never exceeds 20, and the i-th and j-th of them (from 0) lie at
   least 30 s * (j / 5 - i / 5) apart.
   */
  lemma {:induction false} LockoutOverRuns(c: Setup, start: State, run: Trace<Step>, user: int)
    requires Booted(start) && LegalRun(c, start, run)
    ensures var s := Run(c, start, run);
            && TracksUser(s, user)
            && TrackerOf(s, user).failures == |FailTimes(s.trace, user)| <= 20
            && (var times := FailTimes(s.trace, user);
                forall i, j :: 0 <= i < j < |times| ==> times[j] - times[i] >= 30000 * (j / 5 - i / 5))
  {
    if run.Empty? {
    } else {
      LockoutOverRuns(c, start, run.before, user);
      StepTracks(c, Run(c, start, run.before), run.last, user);
    }
  }

  /** A user with 20 failures gets no attempt through: it is refused before the camera starts, whatever the answers. */
  lemma PermanentLockoutRefuses(c: Setup, s: State, x: Session, e: AuthEnv)
    requires TrackerOf(s, x.user).failures >= LOCKOUT_PERMANENT_FAILURES
    ensures var r := Authenticated(c, s, x, e);
            && r.camera == s.camera && r.record == s.record && r.template == s.template
            && r.trace == Then(s.trace, Event(x, s.clock, if s.record.userId == x.user then LockoutPermanent
                                                          else OnError(UNABLE_TO_PROCESS), s.camera))
  {
  }

  /**
   In a state as LockoutOverRuns finds them, an attempt of the enrolled user less than 30 s after the last of 5, 10 or
   15 failures is refused before the camera starts, and the lockout it is told lasts at least to the end of those 30 s
   and at most 30 s from now.
   */
  lemma TimedLockoutRefuses(c: Setup, s: State, x: Session, e: AuthEnv, times: seq<int>)
    requires s.record.userId == x.user && Tracks(TrackerOf(s, x.user), times, s.clock)
    requires 0 < |times| < LOCKOUT_PERMANENT_FAILURES && |times| % LOCKOUT_TIMED_FAILURES == 0
    requires 0 <= s.clock <= e.checkedAt < times[|times| - 1] + LOCKOUT_DURATION
    ensures var left := TrackerOf(s, x.user).lockedUntil - e.checkedAt;
            && Authenticated(c, s, x, e) == Say(WithTracker(s, x.user), x, LockoutTimed(left))
            && times[|times| - 1] + LOCKOUT_DURATION - e.checkedAt <= left <= LOCKOUT_DURATION
  {
  }

  lemma PermanentStep(c: Setup, s: State, step: Step, user: int)
    requires TrackerOf(s, user).failures >= LOCKOUT_PERMANENT_FAILURES && !Resets(step, user)
    ensures TrackerOf(Next(c, s, step), user) == TrackerOf(s, user)
    ensures FailTimes(Next(c, s, step).trace, user) == FailTimes(s.trace, user)
  {
    var x := step.session;
    if step.op.Authenticate? {
      if x.user != user { OthersAttempt(c, s, x, step.op.authEnv, user); }
    } else {
      OtherOperationSameLockout(c, s, x, step.op, user);
    }
  }

  /** Another user's attempt does not touch this user's lockout. */
  lemma OthersAttempt(c: Setup, s: State, x: Session, e: AuthEnv, user: int)
    requires x.user != user
    ensures SameLockout(s, Authenticated(c, s, x, e), user)
  {
    var quiet, during, verdict, f := AuthenticatedTold(c, s, x, e);
    QuietFails(s.trace, x, s.clock, quiet, during, user);
  }

  /** `later` continues `earlier` by steps that do not reset the user's lockout. */
  predicate ContinuesWithoutReset(earlier: Trace<Step>, later: Trace<Step>, user: int) {
    earlier == later || (later.Then? && !Resets(later.last, user) && ContinuesWithoutReset(earlier, later.before, user))
  }

  /** Once permanently locked out, a user stays so, with no further failure or success, until resetLockout. */
  lemma {:induction false} PermanentUntilReset(c: Setup, start: State, earlier: Trace<Step>, later: Trace<Step>,
                                               user: int)
    requires TrackerOf(Run(c, start, earlier), user).failures >= LOCKOUT_PERMANENT_FAILURES
    requires ContinuesWithoutReset(earlier, later, user)
    ensures TrackerOf(Run(c, start, later), user) == TrackerOf(Run(c, start, earlier), user)
    ensures FailTimes(Run(c, start, later).trace, user) == FailTimes(Run(c, start, earlier).trace, user)
  {
    if earlier == later {
    } else {
      PermanentUntilReset(c, start, earlier, later.before, user);
      PermanentStep(c, Run(c, start, later.before), later.last, user);
    }
  }

  /**
   The trackers live in memory: a new process knows of no failure, so a user locked out in the one before it, even
   permanently, is refused no attempt on that account, without any resetLockout.
   */
  lemma RestartClearsLockout(c: Setup, s: State, now: int, x: Session, e: AuthEnv)
    requires 0 <= now <= e.checkedAt
    ensures var r := Rebooted(s, now);
            && TrackerOf(r, x.user) == NO_FAILURES && FailTimes(r.trace, x.user) == []
            && var refusal := AttemptRefusal(c, r, TrackerOf(r, x.user), e);
               refusal.Some? ==> refusal.value.OnError?
  {
  }
}
