/**
 The frame loop of an authentication with the in-process engine (Session::doAuthenticate): what each delivered
 frame means, the loop itself, and the verdict it reaches. Scores and thresholds are real numbers.
 */
module AuthLoop {
  import opened Wrappers
  import opened Callbacks
  import opened Traces

  const MATCH_THRESHOLD: real := 0.8
  const SPOOF_THRESHOLD: real := 0.95
  const LARGE_DETECTOR_DELAY: int := 500

  type Feature = seq<int>

  /** A face as a detector finds it, with the engine's answers; `score` is None when the comparison fails. */
  datatype Face = Face(eyesOpen: bool, feature: Feature, spoof: real, score: Option<real>)

  /** One delivered frame: what either detector would find in it, and the clock when its result is handled. */
  datatype Frame = Frame(small: Option<Face>, large: Option<Face>, now: int)

  /** What stays fixed during one attempt; `canCompare`: the stored feature can be read, or the trusted app is asked. */
  datatype Attempt = Attempt(start: int, requireAttention: bool, canCompare: bool)

  /** Whether the detector in use for the k-th frame is the large one. */
  predicate Large(a: Attempt, fs: seq<Frame>, k: nat)
    requires k <= |fs|
    decreases k, 0
  {
    k > 0 && (Large(a, fs, k - 1) ||
              (FaceAt(a, fs, k - 1).None? && fs[k - 1].now - LastFace(a, fs, k - 1) > LARGE_DETECTOR_DELAY))
  }

  function FaceAt(a: Attempt, fs: seq<Frame>, k: nat): Option<Face>
    requires k < |fs|
    decreases k, 1
  {
    if Large(a, fs, k) then fs[k].large else fs[k].small
  }

  /** When a face was last seen before the k-th frame, or when the attempt started. */
  function LastFace(a: Attempt, fs: seq<Frame>, k: nat): int
    requires k <= |fs|
    decreases k, 0
  {
    if k == 0 then a.start
    else if FaceAt(a, fs, k - 1).Some? then fs[k - 1].now
    else LastFace(a, fs, k - 1)
  }

  function Info(a: Attempt, fs: seq<Frame>, k: nat): AcquiredInfo
    requires k < |fs|
  {
    var face := FaceAt(a, fs, k);
    if face.None? then NOT_DETECTED
    else if a.requireAttention && !face.value.eyesOpen then POOR_GAZE
    else GOOD
  }

  /** A face was detected, attentive when that is required, gave a feature, and was compared with the template. */
  predicate Scored(a: Attempt, fs: seq<Frame>, k: nat)
    requires k < |fs|
  {
    var face := FaceAt(a, fs, k);
    && face.Some?
    && (a.requireAttention ==> face.value.eyesOpen)
    && face.value.feature != []
    && a.canCompare && face.value.score.Some?
  }

  predicate Accepts(a: Attempt, fs: seq<Frame>, k: nat)
    requires k < |fs|
  {
    && Scored(a, fs, k)
    && FaceAt(a, fs, k).value.score.value >= MATCH_THRESHOLD
    && FaceAt(a, fs, k).value.spoof <= SPOOF_THRESHOLD
  }

  function Infos(a: Attempt, fs: seq<Frame>): seq<AcquiredInfo> {
    seq(|fs|, k requires 0 <= k < |fs| => Info(a, fs, k))
  }

  /** The guidance that the k-th frame gives: its info, unless that repeats the frame before. */
  function Guide(a: Attempt, fs: seq<Frame>, k: nat): Option<AcquiredInfo>
    requires k < |fs|
  {
    if k == 0 || Info(a, fs, k) != Info(a, fs, k - 1) then Some(Info(a, fs, k)) else None
  }

  /** The callbacks of the first k frames. */
  function GuideCalls(a: Attempt, fs: seq<Frame>, k: nat): Trace<Callback>
    requires k <= |fs|
  {
    if k == 0 then Empty else AfterFrame(GuideCalls(a, fs, k - 1), false, Guide(a, fs, k - 1), 0, None)
  }

  function FirstAccept(a: Attempt, fs: seq<Frame>, from: nat): (r: Option<nat>)
    requires from <= |fs|
    ensures r.Some? ==> from <= r.value < |fs| && Accepts(a, fs, r.value)
    decreases |fs| - from
  {
    if from == |fs| then None
    else if Accepts(a, fs, from) then Some(from)
    else FirstAccept(a, fs, from + 1)
  }

  lemma {:induction false} FirstAcceptIsFirst(a: Attempt, fs: seq<Frame>, from: nat)
    requires from <= |fs|
    ensures var r := FirstAccept(a, fs, from);
            forall j :: from <= j < (if r.Some? then r.value else |fs|) ==> !Accepts(a, fs, j)
    decreases |fs| - from
  {
    if from == |fs| || Accepts(a, fs, from) {
    } else {
      FirstAcceptIsFirst(a, fs, from + 1);
    }
  }

  /** Some frame among the first k was compared with the template. */
  predicate AnyScored(a: Attempt, fs: seq<Frame>, k: nat)
    requires k <= |fs|
  {
    k > 0 && (AnyScored(a, fs, k - 1) || Scored(a, fs, k - 1))
  }

  function Consumed(a: Attempt, fs: seq<Frame>): (n: nat)
    ensures n <= |fs|
  {
    var r := FirstAccept(a, fs, 0);
    if r.Some? then r.value + 1 else |fs|
  }

  function Decide(a: Attempt, fs: seq<Frame>, cancelled: bool): Verdict {
    if FirstAccept(a, fs, 0).Some? then Succeeded
    else if cancelled then Aborted(CANCELED)
    else if AnyScored(a, fs, |fs|) then Failed
    else Aborted(TIMEOUT)
  }

  /**
   The loop of doAuthenticate over the frames nextFrame would deliver until it returns false, and the decision
   after it. `cancelled` is the cancellation flag when the loop has ended.
   */
  method Authenticate(a: Attempt, fs: seq<Frame>, cancelled: bool) returns (verdict: Verdict, calls: Trace<Callback>)
    ensures verdict == Decide(a, fs, cancelled)
    ensures calls == GuideCalls(a, fs, Consumed(a, fs))
  {
    calls := Empty;
    var lastFace := a.start;
    var large, compared, matched := false, false, false;
    var lastInfo := UNKNOWN;
    var k := 0;
    while k < |fs|
      invariant 0 <= k <= |fs|
      invariant large == Large(a, fs, k)
      invariant lastFace == LastFace(a, fs, k)
      invariant lastInfo == if k == 0 then UNKNOWN else Info(a, fs, k - 1)
      invariant calls == GuideCalls(a, fs, k)
      invariant !matched && FirstAccept(a, fs, 0) == FirstAccept(a, fs, k)
      invariant compared == AnyScored(a, fs, k)
    {
      var f := fs[k];
      var found := if large then f.large else f.small;
      var info := GOOD;
      if found.None? {
        info := NOT_DETECTED;
        if f.now - lastFace > LARGE_DETECTOR_DELAY { large := true; }
      } else {
        lastFace := f.now;
        if a.requireAttention && !found.value.eyesOpen { info := POOR_GAZE; }
      }
      assert found == FaceAt(a, fs, k) && info == Info(a, fs, k);
      if info != lastInfo {
        calls := Then(calls, Guidance(info));
        lastInfo := info;
      }
      k := k + 1;
      if info == GOOD && found.value.feature != [] {
        var score := if a.canCompare then found.value.score else None;
        if score.Some? {
          compared := true;
          if score.value >= MATCH_THRESHOLD && found.value.spoof <= SPOOF_THRESHOLD {
            matched := true;
            break;
          }
        }
      }
    }
    if matched {
      verdict := Succeeded;
    } else if cancelled {
      verdict := Aborted(CANCELED);
    } else if compared {
      verdict := Failed;
    } else {
      verdict := Aborted(TIMEOUT);
    }
  }

  lemma {:induction false} AnyScoredIsExists(a: Attempt, fs: seq<Frame>, k: nat)
    requires k <= |fs|
    ensures AnyScored(a, fs, k) <==> exists j: nat :: j < k && Scored(a, fs, j)
  {
    if k == 0 {
    } else {
      AnyScoredIsExists(a, fs, k - 1);
    }
  }

  /**
   The verdict, said about the delivered frames as a whole: success if and only if some frame was accepted; else
   cancelled, else failed if some frame was compared with the template, else timed out.
   */
  lemma VerdictMeaning(a: Attempt, fs: seq<Frame>, cancelled: bool)
    ensures Decide(a, fs, cancelled) ==
            if exists k: nat :: k < |fs| && Accepts(a, fs, k) then Succeeded
            else if cancelled then Aborted(CANCELED)
            else if exists k: nat :: k < |fs| && Scored(a, fs, k) then Failed
            else Aborted(TIMEOUT)
    ensures !a.canCompare ==> Decide(a, fs, cancelled) == Aborted(if cancelled then CANCELED else TIMEOUT)
  {
    FirstAcceptIsFirst(a, fs, 0);
    AnyScoredIsExists(a, fs, |fs|);
  }

  /** The large detector takes over after the first gap of more than 500 ms without a face, and stays. */
  lemma {:induction false} LargeAfterGap(a: Attempt, fs: seq<Frame>, k: nat)
    requires k <= |fs|
    ensures Large(a, fs, k) <==>
            exists j: nat :: j < k && FaceAt(a, fs, j).None? && fs[j].now - LastFace(a, fs, j) > LARGE_DETECTOR_DELAY
  {
    if k == 0 {
    } else {
      LargeAfterGap(a, fs, k - 1);
    }
  }

  /** LastFace is the time of the latest frame with a face. */
  lemma {:induction false} LastFaceIsLatest(a: Attempt, fs: seq<Frame>, k: nat)
    requires k <= |fs|
    ensures (LastFace(a, fs, k) == a.start && forall j: nat :: j < k ==> FaceAt(a, fs, j).None?) ||
            exists i: nat :: i < k && FaceAt(a, fs, i).Some? && LastFace(a, fs, k) == fs[i].now &&
                             forall j: nat :: i < j < k ==> FaceAt(a, fs, j).None?
  {
    if k == 0 {
    } else {
      LastFaceIsLatest(a, fs, k - 1);
    }
  }

  /** Guidance is the sequence of frame infos without repetitions. */
  lemma {:induction false} GuidanceIsDestuttered(a: Attempt, fs: seq<Frame>, k: nat)
    requires k <= |fs|
    ensures GuidanceOf(GuideCalls(a, fs, k)) == Destutter(Infos(a, fs)[..k])
  {
    if k == 0 {
    } else {
      GuidanceIsDestuttered(a, fs, k - 1);
      AfterFrameSequences(GuideCalls(a, fs, k - 1), false, Guide(a, fs, k - 1), 0, None);
      DestutterStep(Infos(a, fs), k - 1);
    }
  }

  // ----- The same in terms of the frames alone

  /** When the small detector last found a face before the k-th frame, or the start. */
  function LastSmall(start: int, fs: seq<Frame>, k: nat): int
    requires k <= |fs|
  {
    if k == 0 then start else if fs[k - 1].small.Some? then fs[k - 1].now else LastSmall(start, fs, k - 1)
  }

  /** Some frame before the k-th came more than 500 ms after the small detector's last face, and shows it none. */
  ghost predicate GapBefore(start: int, fs: seq<Frame>, k: nat)
    requires k <= |fs|
  {
    exists j: nat :: j < k && fs[j].small.None? && fs[j].now - LastSmall(start, fs, j) > 500
  }

  /** The face that counts in the k-th frame: the small detector's up to the first such gap, then the large one's. */
  ghost function Seen(start: int, fs: seq<Frame>, k: nat): Option<Face>
    requires k < |fs|
  {
    if GapBefore(start, fs, k) then fs[k].large else fs[k].small
  }

  lemma {:induction false} LargeIsGap(a: Attempt, fs: seq<Frame>, k: nat)
    requires k <= |fs|
    ensures Large(a, fs, k) <==> GapBefore(a.start, fs, k)
    ensures !Large(a, fs, k) ==> LastFace(a, fs, k) == LastSmall(a.start, fs, k)
  {
    if k == 0 {
    } else {
      LargeIsGap(a, fs, k - 1);
    }
  }

  lemma SeenIsFaceAt(a: Attempt, fs: seq<Frame>, k: nat)
    requires k < |fs|
    ensures FaceAt(a, fs, k) == Seen(a.start, fs, k)
  {
    LargeIsGap(a, fs, k);
  }

  /** A face that is compared: attentive when that is required, with a feature, and with a score. */
  predicate Comparable(f: Option<Face>, attention: bool) {
    f.Some? && (f.value.eyesOpen || !attention) && f.value.feature != [] && f.value.score.Some?
  }

  predicate Matching(f: Option<Face>, attention: bool) {
    Comparable(f, attention) && f.value.score.value >= 0.8 && f.value.spoof <= 0.95
  }

  ghost predicate AnyComparable(start: int, fs: seq<Frame>, attention: bool) {
    exists k: nat :: k < |fs| && Comparable(Seen(start, fs, k), attention)
  }

  ghost predicate AnyMatching(start: int, fs: seq<Frame>, attention: bool) {
    exists k: nat :: k < |fs| && Matching(Seen(start, fs, k), attention)
  }

  /** The verdict from the frames, the attention requirement and the cancel flag alone. */
  lemma VerdictOfFrames(a: Attempt, fs: seq<Frame>, cancelled: bool)
    ensures Decide(a, fs, cancelled) ==
            if a.canCompare && AnyMatching(a.start, fs, a.requireAttention) then Succeeded
            else if cancelled then Aborted(CANCELED)
            else if a.canCompare && AnyComparable(a.start, fs, a.requireAttention) then Failed
            else Aborted(TIMEOUT)
  {
    VerdictMeaning(a, fs, cancelled);
    forall k: nat | k < |fs|
      ensures Accepts(a, fs, k) == (a.canCompare && Matching(Seen(a.start, fs, k), a.requireAttention))
      ensures Scored(a, fs, k) == (a.canCompare && Comparable(Seen(a.start, fs, k), a.requireAttention))
    {
      SeenIsFaceAt(a, fs, k);
    }
    if AnyMatching(a.start, fs, a.requireAttention) && a.canCompare {
      var k: nat :| k < |fs| && Matching(Seen(a.start, fs, k), a.requireAttention);
      assert Accepts(a, fs, k);
    }
    if AnyComparable(a.start, fs, a.requireAttention) && a.canCompare {
      var k: nat :| k < |fs| && Comparable(Seen(a.start, fs, k), a.requireAttention);
      assert Scored(a, fs, k);
    }
  }

  /** What guidance a frame gives. */
  lemma InfoOfFrame(a: Attempt, fs: seq<Frame>, k: nat)
    requires k < |fs|
    ensures var f := Seen(a.start, fs, k);
            Info(a, fs, k) == if f.None? then NOT_DETECTED
                              else if a.requireAttention && !f.value.eyesOpen then POOR_GAZE
                              else GOOD
  {
    SeenIsFaceAt(a, fs, k);
  }
}
