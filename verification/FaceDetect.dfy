/** Face detection (FaceEngine::detect): the orientation search, the widest face, and the native result arrays. */
module FaceDetect {
  import opened Wrappers

  const CV_FACE_UP: int := 1
  const CV_FACE_LEFT: int := 2
  const CV_FACE_DOWN: int := 4
  const CV_FACE_RIGHT: int := 8

  const ORIENTATIONS: seq<int> := [CV_FACE_RIGHT, CV_FACE_LEFT, CV_FACE_UP, CV_FACE_DOWN]

  datatype Rect = Rect(left: int, top: int, right: int, bottom: int)

  /** A native face; `occlusion` is None when the detector gives no occlusion array. */
  datatype Face = Face(rect: Rect, id: int, points: seq<int>, occlusion: Option<seq<int>>)

  function Width(f: Face): int {
    f.rect.right - f.rect.left
  }

  /** The detector's answer for one orientation: the call's result, whether it set the array, and the faces in it. */
  datatype Answer = Answer(ret: int, hasArray: bool, faces: seq<Face>)

  /** A detector that reports faces has allocated their array. */
  predicate Sane(a: Answer) {
    a.ret == 0 && a.faces != [] ==> a.hasArray
  }

  predicate Finds(a: Answer) {
    a.ret == 0 && a.faces != []
  }

  /** What the caller gets: copies of the face's data, and the orientation that found it. */
  datatype DetectedFace = DetectedFace(rect: Rect, id: int, points: seq<int>, occlusion: seq<int>, orientation: int)

  function Copied(f: Face, orientation: int): DetectedFace {
    DetectedFace(f.rect, f.id, f.points,
                 if f.occlusion.Some? then f.occlusion.value else seq(|f.points|, i => 0), orientation)
  }

  /** The native calls of one detection, in order. */
  datatype Event = Detect(orientation: int) | Copy(orientation: int) | Release(orientation: int, count: nat)

  /** The orientations to try, in order: the expected one, then the others if asked for. */
  function SearchOrder(orientation: int, tryOthers: bool): seq<int> {
    [orientation] + if tryOthers then Without(ORIENTATIONS, orientation) else []
  }

  function Without(s: seq<int>, x: int): seq<int> {
    if s == [] then []
    else Without(s[..|s| - 1], x) + if s[|s| - 1] == x then [] else [s[|s| - 1]]
  }

  /** Position of the first orientation in the order that finds a face. */
  function FirstFinding(order: seq<int>, answers: int -> Answer, from: nat): (r: Option<nat>)
    requires from <= |order|
    ensures r.Some? ==> from <= r.value < |order| && Finds(answers(order[r.value]))
    decreases |order| - from
  {
    if from == |order| then None
    else if Finds(answers(order[from])) then Some(from)
    else FirstFinding(order, answers, from + 1)
  }

  /** The calls of the first n unsuccessful runs: an array that comes back without faces is released at once. */
  function Failures(order: seq<int>, answers: int -> Answer, n: nat): seq<Event>
    requires n <= |order|
  {
    if n == 0 then []
    else
      var o := order[n - 1];
      Failures(order, answers, n - 1) + [Detect(o)] + if answers(o).hasArray then [Release(o, 0)] else []
  }

  /** The index of the first face of maximal width. */
  predicate FirstWidest(faces: seq<Face>, k: nat) {
    && k < |faces|
    && (forall i :: 0 <= i < |faces| ==> Width(faces[i]) <= Width(faces[k]))
    && (forall i :: 0 <= i < k ==> Width(faces[i]) < Width(faces[k]))
  }

  /** One call of the detector, cleaning up when it finds nothing. */
  method Run(o: int, a: Answer, log: seq<Event>) returns (found: bool, log': seq<Event>)
    requires Sane(a)
    ensures found <==> Finds(a)
    ensures log' == log + [Detect(o)] + if !found && a.hasArray then [Release(o, 0)] else []
  {
    log' := log + [Detect(o)];
    var count := |a.faces|;
    if a.ret != 0 { count := 0; }
    if count == 0 && a.hasArray { log' := log' + [Release(o, 0)]; }
    found := count > 0;
  }

  /** The orientation search: `n` orientations were tried, and if a face was found, the last of them found it. */
  method Search(orientation: int, tryOthers: bool, answers: int -> Answer)
    returns (found: bool, current: int, log: seq<Event>, ghost n: nat)
    requires forall o :: Sane(answers(o))
    ensures 1 <= n <= |SearchOrder(orientation, tryOthers)|
    ensures var order := SearchOrder(orientation, tryOthers);
            if found then order[n - 1] == current && FirstFinding(order, answers, 0) == Some(n - 1) &&
                          log == Failures(order, answers, n - 1) + [Detect(current)]
            else n == |order| && FirstFinding(order, answers, 0) == None && log == Failures(order, answers, n)
  {
    ghost var order := SearchOrder(orientation, tryOthers);
    current := orientation;
    found, log := Run(orientation, answers(orientation), []);
    n := 1;
    if !found && tryOthers {
      var i := 0;
      while i < |ORIENTATIONS| && !found
        invariant 0 <= i <= |ORIENTATIONS|
        invariant 1 <= n <= |order|
        invariant !found ==> n == 1 + |Without(ORIENTATIONS[..i], orientation)|
        invariant if found then order[n - 1] == current && Finds(answers(current)) &&
                                log == Failures(order, answers, n - 1) + [Detect(current)]
                  else log == Failures(order, answers, n)
        invariant FirstFinding(order, answers, 0) == FirstFinding(order, answers, if found then n - 1 else n)
      {
        var o := ORIENTATIONS[i];
        WithoutStep(i, orientation);
        if o != orientation {
          assert order[n] == o;
          found, log := Run(o, answers(o), log);
          n := n + 1;
          if found { current := o; }
        }
        i := i + 1;
      }
      assert ORIENTATIONS[..|ORIENTATIONS|] == ORIENTATIONS;
    }
  }

  method Widest(faces: seq<Face>) returns (best: nat)
    requires faces != []
    ensures FirstWidest(faces, best)
  {
    best := 0;
    var k := 1;
    while k < |faces|
      invariant 1 <= k <= |faces| && best < k
      invariant forall i :: 0 <= i < k ==> Width(faces[i]) <= Width(faces[best])
      invariant forall i :: 0 <= i < best ==> Width(faces[i]) < Width(faces[best])
    {
      if Width(faces[k]) > Width(faces[best]) { best := k; }
      k := k + 1;
    }
  }

  /**
   detect. The caller gets the first widest face at the first orientation of the search order that finds any, and
   the log of native calls shows that its array is released after its landmarks are copied.
   */
  method DetectFace(orientation: int, tryOthers: bool, answers: int -> Answer)
    returns (face: Option<DetectedFace>, log: seq<Event>)
    requires forall o :: Sane(answers(o))
    ensures log == Log(orientation, tryOthers, answers)
    ensures Delivers(face, SearchOrder(orientation, tryOthers), answers)
  {
    face := None;
    var found, current;
    ghost var n;
    found, current, log, n := Search(orientation, tryOthers, answers);
    FirstFindingIsFirst(SearchOrder(orientation, tryOthers), answers, 0);
    if !found { return; }
    var faces := answers(current).faces;
    var best := Widest(faces);
    face := Some(Copied(faces[best], current));
    FindingDelivers(orientation, tryOthers, answers, n - 1, best);
    log := log + [Copy(current)];
    log := log + [Release(current, |faces|)];
  }

  /** All native calls of a detection, in order. */
  function Log(orientation: int, tryOthers: bool, answers: int -> Answer): seq<Event> {
    var order := SearchOrder(orientation, tryOthers);
    var r := FirstFinding(order, answers, 0);
    if r.None? then Failures(order, answers, |order|)
    else
      var o := order[r.value];
      Failures(order, answers, r.value) + [Detect(o)] + [Copy(o)] + [Release(o, |answers(o).faces|)]
  }

  /** The orientation used is the first in the order that finds a face, and all before it found none. */
  lemma {:induction false} FirstFindingIsFirst(order: seq<int>, answers: int -> Answer, from: nat)
    requires from <= |order|
    ensures var r := FirstFinding(order, answers, from);
            forall j :: from <= j < (if r.Some? then r.value else |order|) ==> !Finds(answers(order[j]))
    decreases |order| - from
  {
    if from == |order| || Finds(answers(order[from])) {
    } else {
      FirstFindingIsFirst(order, answers, from + 1);
    }
  }

  lemma WithoutStep(i: nat, x: int)
    requires i < |ORIENTATIONS|
    ensures Without(ORIENTATIONS[..i + 1], x) ==
            Without(ORIENTATIONS[..i], x) + if ORIENTATIONS[i] == x then [] else [ORIENTATIONS[i]]
    ensures Without(ORIENTATIONS[..i + 1], x) <= Without(ORIENTATIONS, x)
  {
    assert ORIENTATIONS[..i + 1][..i] == ORIENTATIONS[..i];
    WithoutPrefix(ORIENTATIONS, i + 1, x);
  }

  lemma {:induction false} WithoutPrefix(s: seq<int>, n: nat, x: int)
    requires n <= |s|
    ensures Without(s[..n], x) <= Without(s, x)
  {
    if n < |s| {
      WithoutPrefix(s[..|s| - 1], n, x);
      assert s[..|s| - 1][..n] == s[..n];
    } else {
      assert s[..n] == s;
    }
  }

  // ----- What the search order and the log mean

  predicate Distinct(s: seq<int>) {
    forall i, j :: 0 <= i < j < |s| ==> s[i] != s[j]
  }

  /** No orientation is tried twice, and with the others allowed all four are in the order. */
  lemma SearchOrderMeaning(orientation: int, tryOthers: bool)
    ensures var order := SearchOrder(orientation, tryOthers);
            && Distinct(order) && order[0] == orientation
            && (tryOthers ==> forall o :: o in ORIENTATIONS ==> o in order)
            && (!tryOthers ==> order == [orientation])
  {
    WithoutMeaning(ORIENTATIONS, orientation);
    var order := SearchOrder(orientation, tryOthers);
    assert forall j :: 1 <= j < |order| ==> order[j] in order[1..];
  }

  lemma {:induction false} WithoutMeaning(s: seq<int>, x: int)
    requires Distinct(s)
    ensures forall y :: y in Without(s, x) <==> y in s && y != x
    ensures Distinct(Without(s, x))
  {
    if s == [] {
    } else {
      var init := s[..|s| - 1];
      WithoutMeaning(init, x);
      assert s == init + [s[|s| - 1]];
      assert s[|s| - 1] !in init;
    }
  }

  /** Releases of the array that a run with this orientation returned. */
  function Releases(log: seq<Event>, o: int): nat {
    if log == [] then 0
    else
      var last := log[|log| - 1];
      Releases(log[..|log| - 1], o) + if last.Release? && last.orientation == o then 1 else 0
  }

  function Tries(log: seq<Event>, o: int): nat {
    if log == [] then 0
    else Tries(log[..|log| - 1], o) + if log[|log| - 1] == Detect(o) then 1 else 0
  }

  lemma CountsPush(log: seq<Event>, e: Event, o: int)
    ensures Releases(log + [e], o) == Releases(log, o) + if e.Release? && e.orientation == o then 1 else 0
    ensures Tries(log + [e], o) == Tries(log, o) + if e == Detect(o) then 1 else 0
  {
    assert (log + [e])[..|log|] == log;
  }

  /** Unsuccessful runs release exactly the arrays they got, once each. */
  lemma {:induction false} FailuresRelease(order: seq<int>, answers: int -> Answer, n: nat, o: int)
    requires n <= |order| && Distinct(order)
    ensures Tries(Failures(order, answers, n), o) == if o in order[..n] then 1 else 0
    ensures Releases(Failures(order, answers, n), o) == if o in order[..n] && answers(o).hasArray then 1 else 0
  {
    if n == 0 {
    } else {
      var x := order[n - 1];
      FailuresRelease(order, answers, n - 1, o);
      assert order[..n] == order[..n - 1] + [x];
      assert x !in order[..n - 1];
      var before := Failures(order, answers, n - 1);
      CountsPush(before, Detect(x), o);
      CountsPush(before + [Detect(x)], Release(x, 0), o);
      assert before + [Detect(x)] + [] == before + [Detect(x)];
    }
  }

  /** Over a whole detection: at most one run per orientation, and every array it allocated is released exactly once. */
  lemma EveryArrayReleasedOnce(orientation: int, tryOthers: bool, answers: int -> Answer, o: int)
    requires Sane(answers(o))
    ensures var log := Log(orientation, tryOthers, answers);
            Tries(log, o) <= 1 && Releases(log, o) == if Tries(log, o) == 1 && answers(o).hasArray then 1 else 0
  {
    SearchOrderMeaning(orientation, tryOthers);
    var order := SearchOrder(orientation, tryOthers);
    var r := FirstFinding(order, answers, 0);
    if r.None? {
      FailuresRelease(order, answers, |order|, o);
    } else {
      var x, before := order[r.value], Failures(order, answers, r.value);
      FailuresRelease(order, answers, r.value, o);
      assert x !in order[..r.value];
      CountsPush(before, Detect(x), o);
      CountsPush(before + [Detect(x)], Copy(x), o);
      CountsPush(before + [Detect(x)] + [Copy(x)], Release(x, |answers(x).faces|), o);
    }
  }

  // ----- What the caller gets, field by field

  predicate Wider(f: Face, g: Face) {
    f.rect.right - f.rect.left > g.rect.right - g.rect.left
  }

  /** The native face at index k: no face is wider, and all before it are narrower. */
  predicate PicksFirstWidest(faces: seq<Face>, k: nat) {
    && k < |faces|
    && (forall i :: 0 <= i < |faces| ==> !Wider(faces[i], faces[k]))
    && (forall i :: 0 <= i < k ==> Wider(faces[k], faces[i]))
  }

  /** The position in the search order of the first run that succeeds with some face. */
  predicate RunsFirst(order: seq<int>, answers: int -> Answer, n: nat) {
    && n < |order| && answers(order[n]).ret == 0 && answers(order[n]).faces != []
    && forall j :: 0 <= j < n ==> answers(order[j]).ret != 0 || answers(order[j]).faces == []
  }

  /**
   What detect returns: nothing when every run fails or finds no face, else the rectangle, id and landmarks of the
   first widest face of the first run that finds one, with that run's orientation, and zeros where the detector gives
   no occlusion.
   */
  ghost predicate Delivers(face: Option<DetectedFace>, order: seq<int>, answers: int -> Answer) {
    match face
    case None => forall j :: 0 <= j < |order| ==> answers(order[j]).ret != 0 || answers(order[j]).faces == []
    case Some(d) =>
      exists n: nat, k: nat :: RunsFirst(order, answers, n) && PicksFirstWidest(answers(order[n]).faces, k) &&
        var f := answers(order[n]).faces[k];
        && d.rect == f.rect && d.id == f.id && d.points == f.points && d.orientation == order[n]
        && (match f.occlusion
            case Some(o) => d.occlusion == o
            case None => |d.occlusion| == |f.points| && forall i :: 0 <= i < |f.points| ==> d.occlusion[i] == 0)
  }

  /** The others are tried in the order right (8), left (2), up (1), down (4). */
  lemma SearchOrderIs(orientation: int)
    ensures SearchOrder(orientation, false) == [orientation]
    ensures orientation == 1 ==> SearchOrder(orientation, true) == [1, 8, 2, 4]
    ensures orientation == 2 ==> SearchOrder(orientation, true) == [2, 8, 1, 4]
    ensures orientation == 4 ==> SearchOrder(orientation, true) == [4, 8, 2, 1]
    ensures orientation == 8 ==> SearchOrder(orientation, true) == [8, 2, 1, 4]
  {
    assert ORIENTATIONS[..3] == [8, 2, 1] && ORIENTATIONS[..3][..2] == [8, 2] && [8, 2][..1] == [8];
    assert ORIENTATIONS == [8, 2, 1, 4];
    assert Without([], orientation) == [];
    assert [8][..0] == [];
    assert Without([8], orientation) == if orientation == 8 then [] else [8];
    assert Without([8, 2], orientation) == Without([8], orientation) + if orientation == 2 then [] else [2];
    assert Without([8, 2, 1], orientation) == Without([8, 2], orientation) + if orientation == 1 then [] else [1];
  }

  lemma FindingDelivers(orientation: int, tryOthers: bool, answers: int -> Answer, n: nat, k: nat)
    requires FirstFinding(SearchOrder(orientation, tryOthers), answers, 0) == Some(n)
    requires FirstWidest(answers(SearchOrder(orientation, tryOthers)[n]).faces, k)
    ensures var order := SearchOrder(orientation, tryOthers);
            Delivers(Some(Copied(answers(order[n]).faces[k], order[n])), order, answers)
  {
    var order := SearchOrder(orientation, tryOthers);
    FirstFindingIsFirst(order, answers, 0);
    assert RunsFirst(order, answers, n);
    var faces := answers(order[n]).faces;
    forall i | 0 <= i < k
      ensures Wider(faces[k], faces[i])
    {
      assert Width(faces[i]) < Width(faces[k]);
    }
    forall i | 0 <= i < |faces|
      ensures !Wider(faces[i], faces[k])
    {
      assert Width(faces[i]) <= Width(faces[k]);
    }
    assert PicksFirstWidest(faces, k);
  }
}
