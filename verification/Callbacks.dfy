/** The callbacks of a face session and the sequences drawn from a trace of them. */
module Callbacks {
  import opened Traces
  import opened Wrappers

  datatype AcquiredInfo =
    | UNKNOWN | GOOD | INSUFFICIENT | TOO_BRIGHT | TOO_DARK | TOO_MUCH_MOTION | POOR_GAZE | NOT_DETECTED
    | TOO_CLOSE | TOO_FAR | PAN_TOO_EXTREME | TILT_TOO_EXTREME | FACE_OBSCURED

  datatype Error =
    | HW_UNAVAILABLE | UNABLE_TO_PROCESS | TIMEOUT | NO_SPACE | CANCELED | UNABLE_TO_REMOVE | REENROLL_REQUIRED

  datatype Callback =
    | OnError(error: Error)
    | FirstFrame                                  // enrolment frame, stage FIRST_FRAME_RECEIVED
    | Guidance(info: AcquiredInfo)                // enrolment or authentication frame
    | EnrollmentFinished                          // enrolment frame, stage ENROLLMENT_FINISHED
    | EnrollmentProgress(enrollmentId: int, remaining: int)
    | AuthenticationSucceeded(enrolled: int)
    | AuthenticationFailed
    | LockoutTimed(millis: int)
    | LockoutPermanent
    | LockoutCleared
    | ChallengeGenerated(challenge: int)
    | ChallengeRevoked(challenge: int)
    | EnrollmentsEnumerated(ids: seq<int>)
    | EnrollmentsRemoved(removed: seq<int>)
    | FeaturesRetrieved(requireAttention: bool)
    | FeatureSet
    | AuthenticatorIdRetrieved(authenticatorId: int)
    | AuthenticatorIdInvalidated(newAuthenticatorId: int)

  /** How an authentication that ran its frame loop ends. */
  datatype Verdict = Succeeded | Failed | Aborted(error: Error)

  /** The guidance infos in a trace, in order. */
  function GuidanceOf(calls: Trace<Callback>): seq<AcquiredInfo> {
    match calls
    case Empty => []
    case Then(before, c) => if c.Guidance? then GuidanceOf(before) + [c.info] else GuidanceOf(before)
  }

  /** The reported remaining counts in a trace, in order. */
  function ProgressOf(calls: Trace<Callback>): seq<int> {
    match calls
    case Empty => []
    case Then(before, c) => if c.EnrollmentProgress? then ProgressOf(before) + [c.remaining] else ProgressOf(before)
  }

  /** The number of first-frame markers in a trace. */
  function MarkersOf(calls: Trace<Callback>): nat {
    match calls
    case Empty => 0
    case Then(before, c) => MarkersOf(before) + if c.FirstFrame? then 1 else 0
  }

  /** A sequence without its immediate repetitions. */
  function Destutter<T(==)>(s: seq<T>): seq<T> {
    if s == [] then []
    else if |s| > 1 && s[|s| - 1] == s[|s| - 2] then Destutter(s[..|s| - 1])
    else Destutter(s[..|s| - 1]) + [s[|s| - 1]]
  }

  /** A trace after one more frame: the first-frame marker, guidance and a remaining count, each if there is one. */
  function AfterFrame(calls: Trace<Callback>, first: bool, guide: Option<AcquiredInfo>, id: int, remaining: Option<int>)
    : Trace<Callback>
  {
    var marked := if first then Then(calls, FirstFrame) else calls;
    var guided := if guide.Some? then Then(marked, Guidance(guide.value)) else marked;
    if remaining.Some? then Then(guided, EnrollmentProgress(id, remaining.value)) else guided
  }

  lemma AfterFrameSequences(calls: Trace<Callback>, first: bool, guide: Option<AcquiredInfo>, id: int,
                            remaining: Option<int>)
    ensures var r := AfterFrame(calls, first, guide, id, remaining);
            && GuidanceOf(r) == (if guide.Some? then GuidanceOf(calls) + [guide.value] else GuidanceOf(calls))
            && ProgressOf(r) == (if remaining.Some? then ProgressOf(calls) + [remaining.value] else ProgressOf(calls))
  {
    var marked := if first then Then(calls, FirstFrame) else calls;
    assert GuidanceOf(marked) == GuidanceOf(calls) && ProgressOf(marked) == ProgressOf(calls);
    var guided := if guide.Some? then Then(marked, Guidance(guide.value)) else marked;
    assert ProgressOf(guided) == ProgressOf(calls);
  }

  lemma AfterFrameMarkers(calls: Trace<Callback>, first: bool, guide: Option<AcquiredInfo>, id: int,
                          remaining: Option<int>)
    ensures MarkersOf(AfterFrame(calls, first, guide, id, remaining)) == MarkersOf(calls) + if first then 1 else 0
  {
    var marked := if first then Then(calls, FirstFrame) else calls;
    assert MarkersOf(marked) == MarkersOf(calls) + if first then 1 else 0;
  }

  /** All remaining counts are for this enrolment. */
  predicate CountsFor(calls: Trace<Callback>, id: int) {
    match calls
    case Empty => true
    case Then(before, c) => CountsFor(before, id) && (c.EnrollmentProgress? ==> c.enrollmentId == id)
  }

  lemma AfterFrameFor(calls: Trace<Callback>, first: bool, guide: Option<AcquiredInfo>, id: int,
                      remaining: Option<int>)
    requires CountsFor(calls, id)
    ensures CountsFor(AfterFrame(calls, first, guide, id, remaining), id)
  {
    var marked := if first then Then(calls, FirstFrame) else calls;
    assert CountsFor(marked, id);
  }

  /** What a stored enrolment reports last. */
  function Finished(calls: Trace<Callback>, id: int): (r: Trace<Callback>)
    ensures GuidanceOf(r) == GuidanceOf(calls)
    ensures ProgressOf(r) == ProgressOf(calls) + [0]
  {
    Then(Then(calls, EnrollmentFinished), EnrollmentProgress(id, 0))
  }

  lemma DestutterStep<T>(s: seq<T>, k: nat)
    requires k < |s|
    ensures Destutter(s[..k + 1]) ==
            if k == 0 || s[k] != s[k - 1] then Destutter(s[..k]) + [s[k]] else Destutter(s[..k])
  {
    assert s[..k + 1][..k] == s[..k];
  }

  /** Destutter drops repetitions only: neighbours differ, and the two ends are those of the input. */
  lemma {:induction false} DestutterNeighbours<T>(s: seq<T>)
    ensures forall i, j :: 0 <= i < j < |Destutter(s)| && j == i + 1 ==> Destutter(s)[i] != Destutter(s)[j]
    ensures s != [] ==> Destutter(s) != [] && Destutter(s)[|Destutter(s)| - 1] == s[|s| - 1]
    ensures s != [] ==> Destutter(s)[0] == s[0]
    ensures forall x :: x in s <==> x in Destutter(s)
  {
    if s == [] {
    } else {
      DestutterNeighbours(s[..|s| - 1]);
      assert s == s[..|s| - 1] + [s[|s| - 1]];
      if |s| > 1 { assert s[|s| - 2] == s[..|s| - 1][|s| - 2]; }
    }
  }
}
