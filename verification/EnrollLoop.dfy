/**
 The frame loop of an enrolment with the in-process engine (Session::doEnroll).
 A frame carries what the engine answers about it; the loop decides from those answers.
 */
module EnrollLoop {
  import opened Wrappers
  import opened Callbacks
  import opened Traces

  const ENROLL_FRAMES: int := 5
  const SPOOF_THRESHOLD: real := 0.95

  datatype Quality = QualityGood | QualityInsufficient | QualityTooDark | QualityTooBright | QualityPoorGaze

  type Feature = seq<int>

  /** What the engine says about one delivered frame: `feature` is empty when extraction fails. */
  datatype Frame = Frame(
    detected: bool,
    quality: Quality,
    eyesOpen: bool,
    spoof: real,
    faceId: int,
    feature: Feature)

  function ToAcquiredInfo(q: Quality): AcquiredInfo {
    match q
    case QualityGood => GOOD
    case QualityTooDark => TOO_DARK
    case QualityTooBright => TOO_BRIGHT
    case QualityPoorGaze => POOR_GAZE
    case QualityInsufficient => INSUFFICIENT
  }

  function Info(f: Frame): AcquiredInfo {
    if !f.detected then NOT_DETECTED
    else if f.quality != QualityGood then ToAcquiredInfo(f.quality)
    else if !f.eyesOpen then POOR_GAZE
    else if f.spoof > SPOOF_THRESHOLD then INSUFFICIENT
    else GOOD
  }

  predicate Good(f: Frame) {
    f.detected && f.quality == QualityGood && f.eyesOpen && f.spoof <= SPOOF_THRESHOLD
  }

  /** The last `n` of the first `k` frames are all good and show one face. */
  predicate Streak(fs: seq<Frame>, k: nat, n: nat)
    requires n <= k <= |fs|
  {
    forall i :: k - n <= i < k ==> Good(fs[i]) && fs[i].faceId == fs[k - 1].faceId
  }

  /** Length of the longest streak that ends with the k-th frame (see StreakLengthIsLongest). */
  function StreakLength(fs: seq<Frame>, k: nat): (n: nat)
    requires k <= |fs|
    ensures n <= k
  {
    if k == 0 || !Good(fs[k - 1]) then 0
    else if k > 1 && fs[k - 2].faceId == fs[k - 1].faceId then StreakLength(fs, k - 1) + 1
    else 1
  }

  /** Frames in the current, unfinished group of five of the streak (see GroupIsStreak). */
  function Group(fs: seq<Frame>, k: nat): (n: nat)
    requires k <= |fs|
    ensures n < ENROLL_FRAMES
  {
    if k == 0 || !Good(fs[k - 1]) then 0
    else if k == 1 || fs[k - 2].faceId != fs[k - 1].faceId then 1
    else if Group(fs, k - 1) + 1 == ENROLL_FRAMES then 0
    else Group(fs, k - 1) + 1
  }

  lemma {:induction false} GroupIsStreak(fs: seq<Frame>, k: nat)
    requires k <= |fs|
    ensures Group(fs, k) == StreakLength(fs, k) % ENROLL_FRAMES
  {
    if k == 0 {
    } else {
      GroupIsStreak(fs, k - 1);
    }
  }

  /** The frame at index k completes a group of five inside its streak and yields a feature. */
  predicate Captures(fs: seq<Frame>, k: nat)
    requires k < |fs|
  {
    Good(fs[k]) && Group(fs, k + 1) == 0 && fs[k].feature != []
  }

  /** A frame captures exactly when it is the fifth, tenth, ... of its streak and yields a feature. */
  lemma CapturesIff(fs: seq<Frame>, k: nat)
    requires k < |fs|
    ensures Captures(fs, k) <==>
            StreakLength(fs, k + 1) > 0 && StreakLength(fs, k + 1) % ENROLL_FRAMES == 0 && fs[k].feature != []
  {
    GroupIsStreak(fs, k + 1);
  }

  function Infos(fs: seq<Frame>): seq<AcquiredInfo> {
    seq(|fs|, i requires 0 <= i < |fs| => Info(fs[i]))
  }

  /** The guidance that the k-th frame gives: its info, unless that repeats the frame before. */
  function Guide(fs: seq<Frame>, k: nat): Option<AcquiredInfo>
    requires k < |fs|
  {
    if k == 0 || Info(fs[k]) != Info(fs[k - 1]) then Some(Info(fs[k])) else None
  }

  /** The count that the k-th frame reports: what is missing from its group of five, unless it is complete. */
  function Report(fs: seq<Frame>, k: nat): Option<int>
    requires k < |fs|
  {
    var n := Group(fs, k + 1);
    if n == 0 then None else Some(ENROLL_FRAMES - n)
  }

  /** The callbacks of the first k frames. */
  function EnrollCalls(fs: seq<Frame>, id: int, k: nat): Trace<Callback>
    requires k <= |fs|
  {
    if k == 0 then Empty
    else AfterFrame(EnrollCalls(fs, id, k - 1), k == 1, Guide(fs, k - 1), id, Report(fs, k - 1))
  }

  /** Index of the first frame that captures, if any. */
  function FirstCapture(fs: seq<Frame>, from: nat): (r: Option<nat>)
    requires from <= |fs|
    ensures r.Some? ==> from <= r.value < |fs| && Captures(fs, r.value)
    decreases |fs| - from
  {
    if from == |fs| then None
    else if Captures(fs, from) then Some(from)
    else FirstCapture(fs, from + 1)
  }

  lemma {:induction false} FirstCaptureIsFirst(fs: seq<Frame>, from: nat)
    requires from <= |fs|
    ensures var r := FirstCapture(fs, from);
            forall j :: from <= j < (if r.Some? then r.value else |fs|) ==> !Captures(fs, j)
    decreases |fs| - from
  {
    if from == |fs| || Captures(fs, from) {
    } else {
      FirstCaptureIsFirst(fs, from + 1);
    }
  }

  /** Frames the loop consumes before it stops. */
  function Consumed(fs: seq<Frame>): (n: nat)
    ensures n <= |fs|
  {
    var c := FirstCapture(fs, 0);
    if c.Some? then c.value + 1 else |fs|
  }

  function Captured(fs: seq<Frame>): Feature {
    var c := FirstCapture(fs, 0);
    if c.Some? then fs[c.value].feature else []
  }

  /** What the loop decides about one frame. */
  method Classify(f: Frame) returns (info: AcquiredInfo)
    ensures info == Info(f) && (info == GOOD <==> Good(f))
  {
    info := GOOD;
    if !f.detected {
      info := NOT_DETECTED;
    } else if f.quality != QualityGood {
      info := ToAcquiredInfo(f.quality);
    } else if !f.eyesOpen {
      info := POOR_GAZE;
    } else if f.spoof > SPOOF_THRESHOLD {
      info := INSUFFICIENT;
    }
  }

  /**
   The loop of doEnroll, over the frames nextFrame would deliver until it returns false.
   `feature` is empty unless a capture succeeded.
   */
  method CaptureFeature(fs: seq<Frame>, enrollmentId: int) returns (feature: Feature, calls: Trace<Callback>)
    ensures feature == Captured(fs)
    ensures calls == EnrollCalls(fs, enrollmentId, Consumed(fs))
  {
    feature := [];
    calls := Empty;
    var lastFaceId := -1;
    var goodFrames := 0;
    var lastInfo := UNKNOWN;
    var first := true;
    var k := 0;
    while k < |fs|
      invariant 0 <= k <= |fs|
      invariant first <==> k == 0
      invariant lastInfo == if k == 0 then UNKNOWN else Info(fs[k - 1])
      invariant goodFrames == Group(fs, k)
      invariant k > 0 && Good(fs[k - 1]) ==> lastFaceId == fs[k - 1].faceId
      invariant feature == []
      invariant FirstCapture(fs, 0) == FirstCapture(fs, k)
      invariant calls == EnrollCalls(fs, enrollmentId, k)
    {
      var f := fs[k];
      if first {
        calls := Then(calls, FirstFrame);
        first := false;
      }
      var info := Classify(f);
      if info != lastInfo {
        calls := Then(calls, Guidance(info));
        lastInfo := info;
      }
      k := k + 1;
      if info != GOOD {
        goodFrames := 0;
      } else {
        if f.faceId != lastFaceId {
          lastFaceId := f.faceId;
          goodFrames := 0;
        }
        goodFrames := goodFrames + 1;
        if goodFrames < ENROLL_FRAMES {
          calls := Then(calls, EnrollmentProgress(enrollmentId, ENROLL_FRAMES - goodFrames));
        } else {
          feature := f.feature;
          if feature != [] {
            break;
          }
          goodFrames := 0;
        }
      }
    }
  }

  // ----- What the streak counter means

  /** The frame-by-frame count is the longest run of good frames with one face that ends at frame k. */
  lemma {:induction false} StreakLengthIsLongest(fs: seq<Frame>, k: nat)
    requires k <= |fs|
    ensures forall n: nat | n <= k :: Streak(fs, k, n) <==> n <= StreakLength(fs, k)
  {
    if k == 0 {
    } else {
      StreakLengthIsLongest(fs, k - 1);
      var last := StreakLength(fs, k);
      forall n: nat | n <= k
        ensures Streak(fs, k, n) <==> n <= last
      {
        if n > 0 {
          assert Streak(fs, k, n) ==> Good(fs[k - 1]);
          if n > 1 {
            assert Streak(fs, k, n) <==>
                   Good(fs[k - 1]) && fs[k - 2].faceId == fs[k - 1].faceId && Streak(fs, k - 1, n - 1);
          }
        }
      }
    }
  }

  /**
   A feature is stored only after five frames in a row were good and showed one face, and it comes from the
   last of them.
   */
  lemma CaptureNeedsFiveGoodFrames(fs: seq<Frame>)
    ensures Captured(fs) != [] <==> exists k: nat :: k < |fs| && Captures(fs, k)
    ensures Captured(fs) != [] ==> (
              var n := Consumed(fs);
              && n >= ENROLL_FRAMES && Streak(fs, n, ENROLL_FRAMES)
              && Captured(fs) == fs[n - 1].feature
              && forall j: nat :: j + 1 < n ==> !Captures(fs, j))
  {
    FirstCaptureIsFirst(fs, 0);
    if Captured(fs) != [] {
      var n := Consumed(fs);
      CapturesIff(fs, n - 1);
      StreakLengthIsLongest(fs, n);
    }
  }

  // ----- Progress

  /** Concatenation of prefixes of 4, 3, 2, 1. */
  predicate Countdown(p: seq<int>) {
    p == [] ||
    (var last := p[|p| - 1];
     && 1 <= last <= 4
     && (last == 4 || (|p| > 1 && p[|p| - 2] == last + 1))
     && Countdown(p[..|p| - 1]))
  }

  /** The reported counts count down from 4, restarting at 4; inside a group the last one is what is missing. */
  lemma {:induction false} ProgressCountsDown(fs: seq<Frame>, id: int, k: nat)
    requires k <= |fs|
    ensures CountdownAt(ProgressOf(EnrollCalls(fs, id, k)), Group(fs, k))
  {
    if k == 0 {
    } else {
      ProgressCountsDown(fs, id, k - 1);
      AfterFrameSequences(EnrollCalls(fs, id, k - 1), k == 1, Guide(fs, k - 1), id, Report(fs, k - 1));
      CountdownStep(ProgressOf(EnrollCalls(fs, id, k - 1)), Group(fs, k - 1), Group(fs, k));
    }
  }

  /** What the first k frames' streaks make of the count: each reports what its group of five lacks, if anything. */
  function StreakCounts(fs: seq<Frame>, k: nat): seq<int>
    requires k <= |fs|
  {
    if k == 0 then []
    else
      var m := StreakLength(fs, k) % 5;
      StreakCounts(fs, k - 1) + if m == 0 then [] else [5 - m]
  }

  lemma {:induction false} CountsAreStreaks(fs: seq<Frame>, id: int, k: nat)
    requires k <= |fs|
    ensures ProgressOf(EnrollCalls(fs, id, k)) == StreakCounts(fs, k)
  {
    if k == 0 {
    } else {
      CountsAreStreaks(fs, id, k - 1);
      GroupIsStreak(fs, k);
      AfterFrameSequences(EnrollCalls(fs, id, k - 1), k == 1, Guide(fs, k - 1), id, Report(fs, k - 1));
    }
  }

  /** The state of a countdown whose streak counter stands at n. */
  predicate CountdownAt(p: seq<int>, n: int) {
    Countdown(p) && (n > 0 ==> p != [] && p[|p| - 1] == ENROLL_FRAMES - n)
  }

  lemma CountdownStep(p: seq<int>, m: int, n: int)
    requires 0 <= n < ENROLL_FRAMES && CountdownAt(p, m) && (n <= 1 || (n == m + 1 && m > 0))
    ensures CountdownAt(if n == 0 then p else p + [ENROLL_FRAMES - n], n)
  {
  }

  /** With the final report of 0, a successful enrolment's progress ends in exactly 4, 3, 2, 1, 0. */
  lemma SuccessEndsInCountdown(fs: seq<Frame>, id: int)
    requires Captured(fs) != []
    ensures var p := ProgressOf(Finished(EnrollCalls(fs, id, Consumed(fs)), id));
            |p| >= 5 && Countdown(p[..|p| - 1]) && p[|p| - 5..] == [4, 3, 2, 1, 0]
  {
    var n := Consumed(fs);
    var q := ProgressOf(EnrollCalls(fs, id, n));
    StreakBeforeCapture(fs);
    ProgressCountsDown(fs, id, n - 1);
    assert q == ProgressOf(EnrollCalls(fs, id, n - 1));
    CompletedCountdown(q);
  }

  lemma CompletedCountdown(q: seq<int>)
    requires CountdownAt(q, 4)
    ensures var p := q + [0]; |p| >= 5 && Countdown(p[..|p| - 1]) && p[|p| - 5..] == [4, 3, 2, 1, 0]
  {
    CountdownToOne(q);
    assert (q + [0])[..|q|] == q;
    assert (q + [0])[|q| - 4..] == q[|q| - 4..] + [0];
  }

  lemma StreakBeforeCapture(fs: seq<Frame>)
    requires Captured(fs) != []
    ensures var n := Consumed(fs);
            n > 0 && Group(fs, n) == 0 && Group(fs, n - 1) == 4
  {
  }

  lemma CountdownToOne(p: seq<int>)
    requires Countdown(p) && p != [] && p[|p| - 1] == 1
    ensures |p| >= 4 && p[|p| - 4..] == [4, 3, 2, 1]
  {
    var n := |p|;
    assert p[n - 2] == 2 && Countdown(p[..n - 1]);
    assert p[..n - 1][..n - 2] == p[..n - 2];
    assert p[n - 3] == 3 && Countdown(p[..n - 2]);
    assert p[..n - 2][..n - 3] == p[..n - 3];
    assert p[n - 4] == 4;
  }

  // ----- Guidance

  /** Guidance is the sequence of frame infos without repetitions. */
  lemma {:induction false} GuidanceIsDestuttered(fs: seq<Frame>, id: int, k: nat)
    requires k <= |fs|
    ensures GuidanceOf(EnrollCalls(fs, id, k)) == Destutter(Infos(fs)[..k])
  {
    if k == 0 {
    } else {
      GuidanceIsDestuttered(fs, id, k - 1);
      AfterFrameSequences(EnrollCalls(fs, id, k - 1), k == 1, Guide(fs, k - 1), id, Report(fs, k - 1));
      DestutterStep(Infos(fs), k - 1);
    }
  }

  // ----- Guidance, in terms of the frame alone

  /** What is wrong with a frame comes in this order: no face, its quality, its eyes, a spoof. */
  lemma InfoOfFrame(f: Frame)
    ensures !f.detected ==> Info(f) == NOT_DETECTED
    ensures f.detected ==>
              match f.quality
              case QualityTooDark => Info(f) == TOO_DARK
              case QualityTooBright => Info(f) == TOO_BRIGHT
              case QualityPoorGaze => Info(f) == POOR_GAZE
              case QualityInsufficient => Info(f) == INSUFFICIENT
              case QualityGood =>
                if !f.eyesOpen then Info(f) == POOR_GAZE
                else if f.spoof > 0.95 then Info(f) == INSUFFICIENT
                else Info(f) == GOOD
    ensures Good(f) <==> f.detected && f.quality.QualityGood? && f.eyesOpen && f.spoof <= 0.95
  {
  }
}
