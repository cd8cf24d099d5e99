/**
 The st_auth engine's per-frame bookkeeping (AuthEngine) and the two frame loops that use it
 (Session::doEnrollAuth and Session::doAuthenticateAuth). The SDK itself is an oracle: a frame carries the status
 code and face id the SDK returns for it.
 */
module AuthEngine {
  import opened Wrappers
  import opened Callbacks
  import opened Traces
  import Decimal

  const ENROLL_FRAMES: int := 5

  /** Configuration bits. */
  const ST_AUTH_CLOSE_EYE_STATUS: int := 1
  const ST_AUTH_CLOSE_MOUTH_BLOCK: int := 4
  const ST_AUTH_CLOSE_EYE_BLOCK: int := 16

  const ST_E_HANDLE: int := -2
  const ST_E_TEMPLATE_DAMAGED: int := -1001
  const ST_E_TEMPLATE_UPPER_LIMIT: int := -1008
  const ST_AUTH_OK: int := 0
  const ST_AUTH_NO_FACE: int := 1
  const ST_AUTH_HACKNESS_FAILED: int := 2
  const ST_AUTH_EYE_CLOSE: int := 3
  const ST_AUTH_ENROLL_KEEP: int := 5
  const ST_AUTH_OVER_EXPOSE: int := 7
  const ST_AUTH_ENROLL_OK: int := 101
  const ST_AUTH_EYE_BLOCKED: int := 103
  const ST_AUTH_MOUTH_BLOCKED: int := 104
  const ST_AUTH_FACE_UP: int := 113
  const ST_AUTH_FACE_DOWN: int := 114
  const ST_AUTH_FACE_LEFT: int := 115
  const ST_AUTH_FACE_RIGHT: int := 116
  const ST_AUTH_QUALITY_SHARP: int := 117
  const ST_AUTH_QUALITY_MOUTH: int := 118
  const ST_AUTH_QUALITY_DISTANCE: int := 119
  const ST_AUTH_QUALITY_FACE_SMALL: int := 120
  const ST_AUTH_QUALITY_FACE_BIG: int := 121
  const ST_AUTH_QUALITY_OCCLUSION: int := 122
  const ST_AUTH_QUALITY_BRIGHT_LOW: int := 123
  const ST_AUTH_QUALITY_BRIGHT_HIGH: int := 124
  const ST_AUTH_QUALITY_FACE_MISS: int := 125
  const ST_AUTH_UNLOCK_OK: int := 201
  const ST_AUTH_UNLOCK_FAILED: int := 202
  const ST_AUTH_TEMPLATE_NOT_EXIST: int := 203
  const ST_AUTH_TEMPLATE_NO_FACE: int := 204

  /** Never UNKNOWN, so the first frame's info always differs from the loops' initial UNKNOWN. */
  function ToAcquiredInfo(status: int): (info: AcquiredInfo)
    ensures info != UNKNOWN
  {
    if status == ST_AUTH_OK || status == ST_AUTH_ENROLL_KEEP || status == ST_AUTH_ENROLL_OK ||
       status == ST_AUTH_UNLOCK_OK || status == ST_AUTH_UNLOCK_FAILED
    then GOOD
    else if status == ST_AUTH_NO_FACE || status == ST_AUTH_QUALITY_FACE_MISS then NOT_DETECTED
    else if status == ST_AUTH_EYE_CLOSE then POOR_GAZE
    else if status == ST_AUTH_OVER_EXPOSE || status == ST_AUTH_QUALITY_BRIGHT_HIGH then TOO_BRIGHT
    else if status == ST_AUTH_QUALITY_BRIGHT_LOW then TOO_DARK
    else if status == ST_AUTH_EYE_BLOCKED || status == ST_AUTH_MOUTH_BLOCKED || status == ST_AUTH_QUALITY_MOUTH ||
            status == ST_AUTH_QUALITY_OCCLUSION
    then FACE_OBSCURED
    else if status == ST_AUTH_FACE_UP || status == ST_AUTH_FACE_DOWN then TILT_TOO_EXTREME
    else if status == ST_AUTH_FACE_LEFT || status == ST_AUTH_FACE_RIGHT then PAN_TOO_EXTREME
    else if status == ST_AUTH_QUALITY_SHARP then TOO_MUCH_MOTION
    else if status == ST_AUTH_QUALITY_DISTANCE || status == ST_AUTH_QUALITY_FACE_SMALL then TOO_FAR
    else if status == ST_AUTH_QUALITY_FACE_BIG then TOO_CLOSE
    else INSUFFICIENT
  }

  datatype Result = Result(
    info: AcquiredInfo,
    remaining: int,
    done: bool,
    compared: bool,
    error: Option<Error>)

  /** One frame's SDK answer: the status, the face id it sets, and how writing the face-id file goes. */
  datatype Answer = Answer(status: int, faceId: Decimal.Int32, writing: Saving)

  /** What the SDK answers to one frame of an attempt, with its check for open eyes on and off. */
  datatype Shot = Shot(eyesChecked: int, eyesIgnored: int)

  /** The bits are distinct, so adding them sets them. */
  function Config(requireAttention: bool): int {
    ST_AUTH_CLOSE_EYE_BLOCK + ST_AUTH_CLOSE_MOUTH_BLOCK + if requireAttention then 0 else ST_AUTH_CLOSE_EYE_STATUS
  }

  predicate ChecksEyes(config: int) {
    config % (2 * ST_AUTH_CLOSE_EYE_STATUS) < ST_AUTH_CLOSE_EYE_STATUS
  }

  function StatusOf(x: Shot, eyes: bool): int {
    if eyes then x.eyesChecked else x.eyesIgnored
  }

  function Statuses(xs: seq<Shot>, eyes: bool): seq<int> {
    seq(|xs|, k requires 0 <= k < |xs| => StatusOf(xs[k], eyes))
  }

  predicate Completes(x: Answer) {
    x.status == ST_AUTH_OK || x.status == ST_AUTH_ENROLL_OK
  }

  /** How an enrolment frame ends the loop, if it does. */
  datatype Ending = Goes | Done | Fails(error: Error)

  function EnrollEnding(x: Answer): Ending {
    if Completes(x) then (if x.writing.Saved? then Done else Fails(UNABLE_TO_PROCESS))
    else if x.status == ST_E_TEMPLATE_UPPER_LIMIT then Fails(NO_SPACE)
    else if x.status == ST_E_HANDLE || x.status == ST_E_TEMPLATE_DAMAGED then Fails(UNABLE_TO_PROCESS)
    else Goes
  }

  function UnlockEnding(status: int): Ending {
    if status == ST_AUTH_UNLOCK_OK then Done
    else if status == ST_E_HANDLE then Fails(HW_UNAVAILABLE)
    else if status == ST_E_TEMPLATE_DAMAGED || status == ST_AUTH_TEMPLATE_NOT_EXIST ||
            status == ST_AUTH_TEMPLATE_NO_FACE
    then Fails(REENROLL_REQUIRED)
    else Goes
  }

  /** The SDK matched a face against the template on this frame. */
  predicate Compares(status: int) {
    status == ST_AUTH_UNLOCK_OK || status == ST_AUTH_UNLOCK_FAILED || status == ST_AUTH_HACKNESS_FAILED
  }

  /** Number of kept frames among the first k. */
  function Keeps(xs: seq<Answer>, k: nat): (n: nat)
    requires k <= |xs|
    ensures n <= k
  {
    if k == 0 then 0 else Keeps(xs, k - 1) + if xs[k - 1].status == ST_AUTH_ENROLL_KEEP then 1 else 0
  }

  class Engine {
    var mAccepted: int
    var mFaceId: int
    var mConfig: int
    var mFaceIdFile: Option<string>

    /** The face-id file outlives the process. */
    constructor (faceIdFile: Option<string>)
      ensures mAccepted == 0 && mFaceId == -1 && mConfig == 0 && mFaceIdFile == faceIdFile
    {
      mAccepted, mFaceId, mConfig, mFaceIdFile := 0, -1, 0, faceIdFile;
    }

    /** Forgets the previous enrolment; `configured` is the SDK's answer to the two configuration calls. */
    method BeginEnroll(configured: bool) returns (error: Option<Error>)
      modifies this
      ensures mAccepted == 0 && mFaceIdFile == None && mFaceId == old(mFaceId) && mConfig == old(mConfig)
      ensures error == if configured then None else Some(UNABLE_TO_PROCESS)
    {
      mAccepted := 0;
      mFaceIdFile := None;
      error := if configured then None else Some(UNABLE_TO_PROCESS);
    }

    /** `removed` is whether the SDK comes up and has no face left. */
    method RemoveTemplate(removed: bool) returns (ok: bool)
      modifies this`mFaceIdFile
      ensures mFaceIdFile == None && ok == removed
    {
      mFaceIdFile := None;
      ok := removed;
    }

    method Enroll(x: Answer) returns (result: Result)
      modifies this
      ensures mAccepted == old(mAccepted) + if x.status == ST_AUTH_ENROLL_KEEP then 1 else 0
      ensures mFaceId == old(mFaceId) && mConfig == old(mConfig)
      ensures mFaceIdFile == if EnrollEnding(x).Done? then Some(Decimal.Print(x.faceId))
                             else if Completes(x) && x.writing.Lost? then None
                             else old(mFaceIdFile)
      ensures result.info == ToAcquiredInfo(x.status)
      ensures result.done <==> EnrollEnding(x).Done?
      ensures result.error == if EnrollEnding(x).Fails? then Some(EnrollEnding(x).error) else None
      ensures result.remaining == if x.status == ST_AUTH_ENROLL_KEEP then Max(ENROLL_FRAMES - mAccepted, 1)
                                  else if result.done then 0
                                  else -1
    {
      result := Result(ToAcquiredInfo(x.status), -1, false, false, None);
      if x.status == ST_AUTH_OK || x.status == ST_AUTH_ENROLL_OK {
        if x.writing.Saved? {
          mFaceIdFile := Some(Decimal.Print(x.faceId));
          result := result.(remaining := 0, done := true);
        } else {
          if x.writing.Lost? { mFaceIdFile := None; }
          result := result.(error := Some(UNABLE_TO_PROCESS));
        }
      } else if x.status == ST_AUTH_ENROLL_KEEP {
        mAccepted := mAccepted + 1;
        result := result.(remaining := Max(ENROLL_FRAMES - mAccepted, 1));
      } else if x.status == ST_E_TEMPLATE_UPPER_LIMIT {
        result := result.(error := Some(NO_SPACE));
      } else if x.status == ST_E_HANDLE || x.status == ST_E_TEMPLATE_DAMAGED {
        result := result.(error := Some(UNABLE_TO_PROCESS));
      }
    }

    /**
     Reads back the face id that the last enrolment wrote; a missing or negative one asks for re-enrolment. The SDK is
     told to check the eyes exactly when attention is required.
     */
    method BeginAuthenticate(requireAttention: bool, configured: bool) returns (error: Option<Error>)
      modifies this`mFaceId, this`mConfig
      ensures error == if FaceIdOf(mFaceIdFile).None? then Some(REENROLL_REQUIRED)
                       else if configured then None
                       else Some(UNABLE_TO_PROCESS)
      ensures FaceIdOf(mFaceIdFile).Some? ==> mFaceId == FaceIdOf(mFaceIdFile).value
      ensures FaceIdOf(mFaceIdFile).Some? ==> mConfig == Config(requireAttention)
      ensures FaceIdOf(mFaceIdFile).Some? ==> (ChecksEyes(mConfig) <==> requireAttention)
    {
      var id := FaceIdOf(mFaceIdFile);
      if id.None? { return Some(REENROLL_REQUIRED); }
      mFaceId := id.value;
      mConfig := ST_AUTH_CLOSE_EYE_BLOCK + ST_AUTH_CLOSE_MOUTH_BLOCK;
      if !requireAttention { mConfig := mConfig + ST_AUTH_CLOSE_EYE_STATUS; }
      error := if configured then None else Some(UNABLE_TO_PROCESS);
    }

    method Authenticate(x: Shot) returns (result: Result)
      ensures var status := StatusOf(x, ChecksEyes(mConfig));
              && result.info == ToAcquiredInfo(status)
              && (result.done <==> UnlockEnding(status).Done?)
              && (result.compared <==> Compares(status))
              && result.error == if UnlockEnding(status).Fails? then Some(UnlockEnding(status).error) else None
    {
      var status := StatusOf(x, ChecksEyes(mConfig));
      result := Result(ToAcquiredInfo(status), -1, false, false, None);
      if status == ST_AUTH_UNLOCK_OK || status == ST_AUTH_UNLOCK_FAILED || status == ST_AUTH_HACKNESS_FAILED {
        result := result.(done := status == ST_AUTH_UNLOCK_OK, compared := true);
      } else if status == ST_E_HANDLE {
        result := result.(error := Some(HW_UNAVAILABLE));
      } else if status == ST_E_TEMPLATE_DAMAGED || status == ST_AUTH_TEMPLATE_NOT_EXIST ||
                status == ST_AUTH_TEMPLATE_NO_FACE {
        result := result.(error := Some(REENROLL_REQUIRED));
      }
    }
  }

  /** android::base::ParseInt with minimum 0 on the face-id file, which holds decimal text: no trailing characters. */
  function FaceIdOf(file: Option<string>): Option<int> {
    if file.None? then None
    else
      var t := Decimal.SkipSpaces(file.value);
      var digits := if t != [] && (t[0] == '-' || t[0] == '+') then t[1..] else t;
      if Decimal.DigitPrefix(digits) != |digits| then None
      else Decimal.Parse(file.value, 0, Decimal.INT32_MAX)
  }

  /** An enrolment that reports done can be authenticated against exactly when the SDK's face id was not negative. */
  lemma FaceIdRoundTrip(id: int)
    requires Decimal.INT32_MIN <= id <= Decimal.INT32_MAX
    ensures FaceIdOf(Some(Decimal.Print(id))) == if id >= 0 then Some(id) else None
  {
    Decimal.PrintParse(id, 0, Decimal.INT32_MAX);
    Decimal.PrintHasNoSpaces(id);
    var m: nat := if id < 0 then -id else id;
    Decimal.PrintNatIsDecimal(m);
    Decimal.AllDigitsPrefix(Decimal.PrintNat(m));
    if id < 0 { assert Decimal.Print(id)[1..] == Decimal.PrintNat(m); }
  }

  // ----- Enrolment loop

  /** Index of the first frame that ends an enrolment. */
  function FirstEnding(xs: seq<Answer>, from: nat): (r: Option<nat>)
    requires from <= |xs|
    ensures r.Some? ==> from <= r.value < |xs| && !EnrollEnding(xs[r.value]).Goes?
    decreases |xs| - from
  {
    if from == |xs| then None
    else if !EnrollEnding(xs[from]).Goes? then Some(from)
    else FirstEnding(xs, from + 1)
  }

  lemma {:induction false} FirstEndingIsFirst(xs: seq<Answer>, from: nat)
    requires from <= |xs|
    ensures var r := FirstEnding(xs, from);
            forall j :: from <= j < (if r.Some? then r.value else |xs|) ==> EnrollEnding(xs[j]).Goes?
    decreases |xs| - from
  {
    if from == |xs| || !EnrollEnding(xs[from]).Goes? {
    } else {
      FirstEndingIsFirst(xs, from + 1);
    }
  }

  /** The outcome of the loop: done, an engine error, or neither when the frames ran out. */
  function EnrollOutcome(xs: seq<Answer>): Ending {
    var r := FirstEnding(xs, 0);
    if r.Some? then EnrollEnding(xs[r.value]) else Goes
  }

  /** The face id of the frame that completes the enrolment; -1, as the source initialises it, if none does. */
  function EnrolledFaceId(xs: seq<Answer>): int {
    var r := FirstEnding(xs, 0);
    if r.Some? then xs[r.value].faceId else -1
  }

  /** Frames whose info is reported: all consumed ones except one that ends in an error. */
  function Shown(xs: seq<Answer>): (n: nat)
    ensures n <= |xs|
  {
    var r := FirstEnding(xs, 0);
    if r.None? then |xs| else if EnrollEnding(xs[r.value]).Done? then r.value + 1 else r.value
  }

  function Infos(xs: seq<Answer>): seq<AcquiredInfo> {
    seq(|xs|, k requires 0 <= k < |xs| => ToAcquiredInfo(xs[k].status))
  }

  /** The guidance that the k-th frame gives: its info, unless that repeats the frame before. */
  function Guide(xs: seq<Answer>, k: nat): Option<AcquiredInfo>
    requires k < |xs|
  {
    var info := ToAcquiredInfo(xs[k].status);
    if k == 0 || info != ToAcquiredInfo(xs[k - 1].status) then Some(info) else None
  }

  /** The count the k-th frame reports: the first four kept frames report one. */
  function Report(xs: seq<Answer>, k: nat): Option<int>
    requires k < |xs|
  {
    if xs[k].status == ST_AUTH_ENROLL_KEEP && Keeps(xs, k) < 4 then Some(4 - Keeps(xs, k)) else None
  }

  /** The callbacks of the first k frames, none of which ends in an error. */
  function ShownCalls(xs: seq<Answer>, id: int, k: nat): Trace<Callback>
    requires k <= |xs|
  {
    if k == 0 then Empty
    else AfterFrame(ShownCalls(xs, id, k - 1), k == 1, Guide(xs, k - 1), id, Report(xs, k - 1))
  }

  /** All callbacks of the loop: an engine error on the very first frame leaves only the first-frame marker. */
  function EnrollCalls(xs: seq<Answer>, id: int): Trace<Callback> {
    if xs != [] && Shown(xs) == 0 then Then(Empty, FirstFrame) else ShownCalls(xs, id, Shown(xs))
  }

  /** The loop of doEnrollAuth over the frames nextFrame would deliver until it returns false. */
  method EnrollFrames(engine: Engine, xs: seq<Answer>, id: int) returns (outcome: Ending, calls: Trace<Callback>)
    requires engine.mAccepted == 0
    modifies engine
    ensures outcome == EnrollOutcome(xs)
    ensures calls == EnrollCalls(xs, id)
    ensures engine.mFaceId == old(engine.mFaceId)
    ensures outcome.Done? ==> engine.mFaceIdFile == Some(Decimal.Print(EnrolledFaceId(xs)))
  {
    calls := Empty;
    outcome := Goes;
    var lastRemaining := ENROLL_FRAMES;
    var lastInfo := UNKNOWN;
    var first := true;
    var k := 0;
    while k < |xs|
      invariant 0 <= k <= |xs|
      invariant first <==> k == 0
      invariant outcome == Goes
      invariant FirstEnding(xs, 0) == FirstEnding(xs, k)
      invariant lastInfo == if k == 0 then UNKNOWN else ToAcquiredInfo(xs[k - 1].status)
      invariant engine.mAccepted == Keeps(xs, k) && engine.mFaceId == old(engine.mFaceId)
      invariant lastRemaining == ENROLL_FRAMES - Min(Keeps(xs, k), 4)
      invariant calls == ShownCalls(xs, id, k)
    {
      if first {
        calls := Then(calls, FirstFrame);
        first := false;
      }
      var result := engine.Enroll(xs[k]);
      if result.error.Some? {
        outcome := Fails(result.error.value);
        break;
      }
      if result.info != lastInfo {
        calls := Then(calls, Guidance(result.info));
        lastInfo := result.info;
      }
      k := k + 1;
      if result.done {
        outcome := Done;
        break;
      }
      if result.remaining > 0 && result.remaining != lastRemaining {
        calls := Then(calls, EnrollmentProgress(id, result.remaining));
        lastRemaining := result.remaining;
      }
    }
  }

  /** 4, 3, ... : the counts reported for n kept frames. */
  function KeepCounts(n: nat): seq<int> {
    [4, 3, 2, 1][..Min(n, 4)]
  }

  /** Guidance is the sequence of frame infos without repetitions. */
  lemma {:induction false} GuidanceIsDestuttered(xs: seq<Answer>, id: int, k: nat)
    requires k <= |xs|
    ensures GuidanceOf(ShownCalls(xs, id, k)) == Destutter(Infos(xs)[..k])
  {
    if k == 0 {
    } else {
      GuidanceIsDestuttered(xs, id, k - 1);
      AfterFrameSequences(ShownCalls(xs, id, k - 1), k == 1, Guide(xs, k - 1), id, Report(xs, k - 1));
      DestutterStep(Infos(xs), k - 1);
    }
  }

  /** One count per kept frame, up to four of them. */
  lemma {:induction false} ProgressCountsKeeps(xs: seq<Answer>, id: int, k: nat)
    requires k <= |xs|
    ensures ProgressOf(ShownCalls(xs, id, k)) == KeepCounts(Keeps(xs, k))
  {
    if k == 0 {
    } else {
      ProgressCountsKeeps(xs, id, k - 1);
      AfterFrameSequences(ShownCalls(xs, id, k - 1), k == 1, Guide(xs, k - 1), id, Report(xs, k - 1));
      KeepCountsStep(Keeps(xs, k - 1));
      var kept, p := Keeps(xs, k - 1), ProgressOf(ShownCalls(xs, id, k - 1));
      assert p == KeepCounts(kept);
      assert ProgressOf(ShownCalls(xs, id, k)) ==
             if Report(xs, k - 1).Some? then p + [Report(xs, k - 1).value] else p;
    }
  }

  lemma KeepCountsStep(n: nat)
    ensures KeepCounts(n + 1) == if n < 4 then KeepCounts(n) + [4 - n] else KeepCounts(n)
  {
  }

  /**
   The reported counts of a completed enrolment with n kept frames: strictly decreasing, 4 down to max(5 - n, 1),
   then 0, although the engine may answer 1 any number of times; just 0 when no frame was kept.
   */
  lemma ProgressDecreases(xs: seq<Answer>, id: int)
    requires EnrollOutcome(xs).Done?
    ensures var p := ProgressOf(Finished(EnrollCalls(xs, id), id));
            var n := Keeps(xs, Shown(xs));
            && p == KeepCounts(n) + [0]
            && (forall i, j :: 0 <= i < j < |p| ==> p[i] > p[j])
            && (if n == 0 then p == [0] else p[0] == 4 && p[|p| - 2] == Max(ENROLL_FRAMES - n, 1))
  {
    ProgressCountsKeeps(xs, id, Shown(xs));
  }

  /** Before any ending, too, guidance is de-stuttered and the counts strictly decrease. */
  lemma EnrollTrace(xs: seq<Answer>, id: int)
    ensures GuidanceOf(EnrollCalls(xs, id)) == Destutter(Infos(xs)[..Shown(xs)])
    ensures ProgressOf(EnrollCalls(xs, id)) == KeepCounts(Keeps(xs, Shown(xs)))
  {
    GuidanceIsDestuttered(xs, id, Shown(xs));
    ProgressCountsKeeps(xs, id, Shown(xs));
  }

  // ----- Authentication loop

  function FirstUnlockEnding(statuses: seq<int>, from: nat): (r: Option<nat>)
    requires from <= |statuses|
    ensures r.Some? ==> from <= r.value < |statuses| && !UnlockEnding(statuses[r.value]).Goes?
    decreases |statuses| - from
  {
    if from == |statuses| then None
    else if !UnlockEnding(statuses[from]).Goes? then Some(from)
    else FirstUnlockEnding(statuses, from + 1)
  }

  lemma {:induction false} FirstUnlockEndingIsFirst(statuses: seq<int>, from: nat)
    requires from <= |statuses|
    ensures var r := FirstUnlockEnding(statuses, from);
            forall j :: from <= j < (if r.Some? then r.value else |statuses|) ==> UnlockEnding(statuses[j]).Goes?
    decreases |statuses| - from
  {
    if from == |statuses| || !UnlockEnding(statuses[from]).Goes? {
    } else {
      FirstUnlockEndingIsFirst(statuses, from + 1);
    }
  }

  /** Some frame among the first k was matched against the template. */
  predicate AnyCompares(statuses: seq<int>, k: nat)
    requires k <= |statuses|
  {
    k > 0 && (AnyCompares(statuses, k - 1) || Compares(statuses[k - 1]))
  }

  function UnlockOutcome(statuses: seq<int>): Ending {
    var r := FirstUnlockEnding(statuses, 0);
    if r.Some? then UnlockEnding(statuses[r.value]) else Goes
  }

  function UnlockShown(statuses: seq<int>): (n: nat)
    ensures n <= |statuses|
  {
    var r := FirstUnlockEnding(statuses, 0);
    if r.None? then |statuses| else if UnlockEnding(statuses[r.value]).Done? then r.value + 1 else r.value
  }

  function UnlockInfos(statuses: seq<int>): seq<AcquiredInfo> {
    seq(|statuses|, k requires 0 <= k < |statuses| => ToAcquiredInfo(statuses[k]))
  }

  function UnlockGuide(statuses: seq<int>, k: nat): Option<AcquiredInfo>
    requires k < |statuses|
  {
    var info := ToAcquiredInfo(statuses[k]);
    if k == 0 || info != ToAcquiredInfo(statuses[k - 1]) then Some(info) else None
  }

  function UnlockCalls(statuses: seq<int>, k: nat): Trace<Callback>
    requires k <= |statuses|
  {
    if k == 0 then Empty else AfterFrame(UnlockCalls(statuses, k - 1), false, UnlockGuide(statuses, k - 1), 0, None)
  }

  function Decide(statuses: seq<int>, cancelled: bool): Verdict {
    match UnlockOutcome(statuses)
    case Done => Succeeded
    case Fails(e) => Aborted(e)
    case Goes =>
      if cancelled then Aborted(CANCELED)
      else if AnyCompares(statuses, |statuses|) then Failed
      else Aborted(TIMEOUT)
  }

  /** The loop of doAuthenticateAuth and the decision after it. */
  method AuthenticateFrames(engine: Engine, xs: seq<Shot>, cancelled: bool)
    returns (verdict: Verdict, calls: Trace<Callback>)
    ensures var statuses := Statuses(xs, ChecksEyes(engine.mConfig));
            verdict == Decide(statuses, cancelled) && calls == UnlockCalls(statuses, UnlockShown(statuses))
  {
    ghost var statuses := Statuses(xs, ChecksEyes(engine.mConfig));
    calls := Empty;
    var error: Option<Error> := None;
    var compared, matched := false, false;
    var lastInfo := UNKNOWN;
    var k := 0;
    while k < |xs|
      invariant 0 <= k <= |statuses| == |xs|
      invariant error.None? && !matched
      invariant FirstUnlockEnding(statuses, 0) == FirstUnlockEnding(statuses, k)
      invariant compared == AnyCompares(statuses, k)
      invariant lastInfo == if k == 0 then UNKNOWN else ToAcquiredInfo(statuses[k - 1])
      invariant calls == UnlockCalls(statuses, k)
    {
      var result := engine.Authenticate(xs[k]);
      if result.error.Some? {
        error := result.error;
        break;
      }
      if result.info != lastInfo {
        calls := Then(calls, Guidance(result.info));
        lastInfo := result.info;
      }
      compared := compared || result.compared;
      k := k + 1;
      if result.done {
        matched := true;
        break;
      }
    }
    if matched {
      verdict := Succeeded;
    } else if error.Some? {
      verdict := Aborted(error.value);
    } else if cancelled {
      verdict := Aborted(CANCELED);
    } else if compared {
      verdict := Failed;
    } else {
      verdict := Aborted(TIMEOUT);
    }
  }

  lemma {:induction false} AnyComparesIsExists(statuses: seq<int>, k: nat)
    requires k <= |statuses|
    ensures AnyCompares(statuses, k) <==> exists j: nat :: j < k && Compares(statuses[j])
  {
    if k == 0 {
    } else {
      AnyComparesIsExists(statuses, k - 1);
    }
  }

  /**
   The verdict on the delivered frames: the first frame that matches or breaks the engine decides; without one, a
   cancelled attempt is cancelled, else it failed if some frame was compared, else it timed out.
   */
  lemma VerdictMeaning(statuses: seq<int>, cancelled: bool, k: nat)
    ensures k < |statuses| && !UnlockEnding(statuses[k]).Goes? &&
            (forall j: nat :: j < k ==> UnlockEnding(statuses[j]).Goes?) ==>
              Decide(statuses, cancelled) ==
              match UnlockEnding(statuses[k]) case Done => Succeeded case Fails(e) => Aborted(e) case Goes => Failed
    ensures (forall j: nat :: j < |statuses| ==> UnlockEnding(statuses[j]).Goes?) ==>
              Decide(statuses, cancelled) ==
              if cancelled then Aborted(CANCELED)
              else if exists j: nat :: j < |statuses| && Compares(statuses[j]) then Failed
              else Aborted(TIMEOUT)
  {
    FirstUnlockEndingIsFirst(statuses, 0);
    AnyComparesIsExists(statuses, |statuses|);
    var r := FirstUnlockEnding(statuses, 0);
    if r.Some? { assert !UnlockEnding(statuses[r.value]).Goes?; }
  }

  /** Guidance is the sequence of frame infos without repetitions. */
  lemma {:induction false} UnlockGuidanceIsDestuttered(statuses: seq<int>, k: nat)
    requires k <= |statuses|
    ensures GuidanceOf(UnlockCalls(statuses, k)) == Destutter(UnlockInfos(statuses)[..k])
  {
    if k == 0 {
    } else {
      UnlockGuidanceIsDestuttered(statuses, k - 1);
      AfterFrameSequences(UnlockCalls(statuses, k - 1), false, UnlockGuide(statuses, k - 1), 0, None);
      DestutterStep(UnlockInfos(statuses), k - 1);
    }
  }

  // ----- The same in terms of the status codes alone

  /** The codes that end an attempt: a match, a lost handle, a damaged, missing or empty template. */
  predicate EndsUnlock(status: int) {
    status == 201 || status == -2 || status == -1001 || status == 203 || status == 204
  }

  predicate FirstAt(statuses: seq<int>, k: nat) {
    k < |statuses| && EndsUnlock(statuses[k]) && forall j: nat :: j < k ==> !EndsUnlock(statuses[j])
  }

  /** Exactly when an attempt has which verdict, by the numbers the SDK returns. */
  lemma VerdictOfCodes(statuses: seq<int>, cancelled: bool)
    ensures Decide(statuses, cancelled) == Succeeded <==>
            exists k: nat :: FirstAt(statuses, k) && statuses[k] == 201
    ensures Decide(statuses, cancelled) == Aborted(HW_UNAVAILABLE) <==>
            exists k: nat :: FirstAt(statuses, k) && statuses[k] == -2
    ensures Decide(statuses, cancelled) == Aborted(REENROLL_REQUIRED) <==>
            exists k: nat :: FirstAt(statuses, k) && statuses[k] != 201 && statuses[k] != -2
    ensures (forall k: nat :: k < |statuses| ==> !EndsUnlock(statuses[k])) ==>
              Decide(statuses, cancelled) ==
              if cancelled then Aborted(CANCELED)
              else if exists k: nat :: k < |statuses| && (statuses[k] == 202 || statuses[k] == 2) then Failed
              else Aborted(TIMEOUT)
  {
    UnlockCodes(statuses, cancelled, FirstUnlockEnding(statuses, 0));
    FirstUnlockEndingIsFirst(statuses, 0);
    AnyComparesIsExists(statuses, |statuses|);
  }

  lemma UnlockCodes(statuses: seq<int>, cancelled: bool, r: Option<nat>)
    requires r == FirstUnlockEnding(statuses, 0)
    ensures r.Some? ==> FirstAt(statuses, r.value) && forall k: nat :: FirstAt(statuses, k) ==> k == r.value
    ensures r.None? ==> forall k: nat :: k < |statuses| ==> !EndsUnlock(statuses[k])
  {
    FirstUnlockEndingIsFirst(statuses, 0);
    forall j: nat | j < |statuses|
      ensures UnlockEnding(statuses[j]).Goes? <==> !EndsUnlock(statuses[j])
    {
    }
    if r.Some? {
      assert EndsUnlock(statuses[r.value]);
    }
  }

  /** The codes that end an enrolment: done, or a full, damaged or lost template store. */
  predicate EndsEnrol(status: int) {
    status == 0 || status == 101 || status == -1008 || status == -2 || status == -1001
  }

  predicate EnrolEndsAt(xs: seq<Answer>, k: nat) {
    k < |xs| && EndsEnrol(xs[k].status) && forall j: nat :: j < k ==> !EndsEnrol(xs[j].status)
  }

  /** Exactly when an enrolment's frames end it, and how, by the numbers the SDK returns. */
  lemma OutcomeOfCodes(xs: seq<Answer>, k: nat)
    ensures EnrolEndsAt(xs, k) ==>
              && EnrolledFaceId(xs) == xs[k].faceId
              && EnrollOutcome(xs) ==
                 if xs[k].status == -1008 then Fails(NO_SPACE)
                 else if xs[k].status < 0 then Fails(UNABLE_TO_PROCESS)
                 else if xs[k].writing.Saved? then Done
                 else Fails(UNABLE_TO_PROCESS)
    ensures (forall j: nat :: j < |xs| ==> !EndsEnrol(xs[j].status)) ==> EnrollOutcome(xs) == Goes
  {
    FirstEndingIsFirst(xs, 0);
    forall j: nat | j < |xs|
      ensures EnrollEnding(xs[j]).Goes? <==> !EndsEnrol(xs[j].status)
    {
    }
    var r := FirstEnding(xs, 0);
    if r.Some? { assert EndsEnrol(xs[r.value].status); }
  }

  /** Which status gives which guidance. */
  lemma InfoOfCodes(status: int)
    ensures var info := ToAcquiredInfo(status);
            && (info == GOOD <==> status == 0 || status == 5 || status == 101 || status == 201 || status == 202)
            && (info == NOT_DETECTED <==> status == 1 || status == 125)
            && (info == POOR_GAZE <==> status == 3)
            && (info == TOO_BRIGHT <==> status == 7 || status == 124)
            && (info == TOO_DARK <==> status == 123)
            && (info == FACE_OBSCURED <==> status == 103 || status == 104 || status == 118 || status == 122)
            && (info == TILT_TOO_EXTREME <==> status == 113 || status == 114)
            && (info == PAN_TOO_EXTREME <==> status == 115 || status == 116)
            && (info == TOO_MUCH_MOTION <==> status == 117)
            && (info == TOO_FAR <==> status == 119 || status == 120)
            && (info == TOO_CLOSE <==> status == 121)
  {
  }

  /** The SDK's configuration word: mouth and eye blocking ignored, and the closed-eye check off unless required. */
  lemma ConfigIs(requireAttention: bool)
    ensures Config(requireAttention) == if requireAttention then 20 else 21
    ensures ChecksEyes(20) && !ChecksEyes(21)
  {
  }
}
