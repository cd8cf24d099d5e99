/**
 Sessions with the trusted app: how often they are started and shut down by the retrying open of both clients
 (FaceTee with two sessions, AuthTee with one).
 */
module TeeSessions {
  import opened Wrappers

  /** Five attempts over two paths. */
  const ATTEMPTS: nat := 10

  /** One start_app call: its return value, whether it set the handle, and whether that has a shared buffer. */
  datatype StartAnswer = StartAnswer(ret: int, handle: bool, buffer: bool)

  predicate Usable(a: StartAnswer) {
    a.ret == 0 && a.handle && a.buffer
  }

  function FirstUsable(answers: seq<StartAnswer>, from: nat): (r: Option<nat>)
    requires from <= |answers|
    ensures r.Some? ==> from <= r.value < |answers| && Usable(answers[r.value])
    decreases |answers| - from
  {
    if from == |answers| then None
    else if Usable(answers[from]) then Some(from)
    else FirstUsable(answers, from + 1)
  }

  /** Calls made: up to the first usable handle, or all. */
  function Tried(answers: seq<StartAnswer>): (n: nat)
    ensures n <= |answers|
  {
    var r := FirstUsable(answers, 0);
    if r.Some? then r.value + 1 else |answers|
  }

  /** Handles that the first k calls started. */
  function HandlesIn(answers: seq<StartAnswer>, k: nat): (n: nat)
    requires k <= |answers|
    ensures k > 0 && answers[k - 1].handle ==> n > 0
  {
    if k == 0 then 0 else HandlesIn(answers, k - 1) + if answers[k - 1].handle then 1 else 0
  }

  lemma {:induction false} FirstUsableIff(answers: seq<StartAnswer>, from: nat)
    requires from <= |answers|
    ensures FirstUsable(answers, from).Some? <==> exists i :: from <= i < |answers| && Usable(answers[i])
    decreases |answers| - from
  {
    if from == |answers| || Usable(answers[from]) {
    } else {
      FirstUsableIff(answers, from + 1);
    }
  }

  // ----- Two sessions (FaceTee)

  datatype Sessions = Sessions(loaded: bool, feature: bool, frame: bool, started: nat, stopped: nat)

  const NO_SESSIONS: Sessions := Sessions(false, false, false, 0, 0)

  datatype OpenAnswers = OpenAnswers(loads: bool, feature: seq<StartAnswer>, frame: seq<StartAnswer>)

  predicate ValidAnswers(o: OpenAnswers) {
    |o.feature| == ATTEMPTS && |o.frame| == ATTEMPTS
  }

  function Held(s: Sessions): nat {
    (if s.feature then 1 else 0) + (if s.frame then 1 else 0)
  }

  /** Handles started minus handles shut down is the number of handles held. */
  predicate Conserved(s: Sessions) {
    s.started == s.stopped + Held(s)
  }

  predicate CanUse(s: Sessions) {
    s.loaded && s.feature && s.frame
  }

  function FeatureOpened(s: Sessions, answers: seq<StartAnswer>): Sessions {
    if s.feature then s
    else
      var n := HandlesIn(answers, Tried(answers));
      var ok := FirstUsable(answers, 0).Some?;
      s.(feature := ok, started := s.started + n, stopped := s.stopped + n - if ok then 1 else 0)
  }

  function FrameOpened(s: Sessions, answers: seq<StartAnswer>): Sessions {
    if s.frame then s
    else
      var n := HandlesIn(answers, Tried(answers));
      var ok := FirstUsable(answers, 0).Some?;
      s.(frame := ok, started := s.started + n, stopped := s.stopped + n - if ok then 1 else 0)
  }

  /** open: load the library, then the feature session, then the frame session, each only after the one before. */
  function Opened(s: Sessions, o: OpenAnswers): Sessions {
    if !s.loaded && !o.loads then s
    else
      var s1 := FeatureOpened(s.(loaded := true), o.feature);
      if s1.feature then FrameOpened(s1, o.frame) else s1
  }

  function Closed(s: Sessions): Sessions {
    s.(feature := false, frame := false, stopped := s.stopped + Held(s))
  }

  /** One use of the client: every command opens first, whether or not it then reaches the app. */
  datatype Use = OpenFor(answers: OpenAnswers) | Close

  function Uses(s: Sessions, uses: seq<Use>): Sessions {
    if uses == [] then s
    else
      var last, before := uses[|uses| - 1], Uses(s, uses[..|uses| - 1]);
      if last.Close? then Closed(before) else Opened(before, last.answers)
  }

  /**
   Over any run of commands and closes, with any answers: handles started minus handles shut down is always the
   number of handles held, and closing shuts down all of them.
   */
  lemma {:induction false} HandlesConserved(uses: seq<Use>)
    ensures Conserved(Uses(NO_SESSIONS, uses))
    ensures var c := Closed(Uses(NO_SESSIONS, uses)); c.started == c.stopped
  {
    if uses == [] {
    } else {
      HandlesConserved(uses[..|uses| - 1]);
    }
  }

  /** Some call returns 0 and a handle with a shared buffer. */
  ghost predicate AnyGives(answers: seq<StartAnswer>) {
    exists i :: 0 <= i < |answers| && answers[i].ret == 0 && answers[i].handle && answers[i].buffer
  }

  /** Opening works exactly when the library loads and every missing session finds a usable handle in ten calls. */
  lemma OpenIff(s: Sessions, o: OpenAnswers)
    ensures CanUse(Opened(s, o)) <==>
            && (s.loaded || o.loads)
            && (s.feature || AnyGives(o.feature))
            && (s.frame || AnyGives(o.frame))
  {
    FirstUsableIff(o.feature, 0);
    FirstUsableIff(o.frame, 0);
    if AnyGives(o.feature) {
      var i :| 0 <= i < |o.feature| && o.feature[i].ret == 0 && o.feature[i].handle && o.feature[i].buffer;
      assert Usable(o.feature[i]);
    }
    if AnyGives(o.frame) {
      var i :| 0 <= i < |o.frame| && o.frame[i].ret == 0 && o.frame[i].handle && o.frame[i].buffer;
      assert Usable(o.frame[i]);
    }
  }
}

/** The st_auth engine's single session with the trusted app (AuthTee). */
module AuthTee {
  import opened TeeSessions

  class AuthTee {
    var sLoaded: bool
    var sHandle: bool
    ghost var started: nat
    ghost var stopped: nat

    /** One session is a pair whose second one is never opened. */
    ghost function State(): Sessions
      reads this
    {
      Sessions(sLoaded, sHandle, false, started, stopped)
    }

    constructor ()
      ensures State() == NO_SESSIONS && Conserved(State())
    {
      sLoaded, sHandle, started, stopped := false, false, 0, 0;
    }

    /** open: the handle is tried in a local variable and kept only when it is usable. */
    method Open(loads: bool, answers: seq<StartAnswer>) returns (ok: bool)
      requires Conserved(State()) && |answers| == ATTEMPTS
      modifies this
      ensures Conserved(State())
      ensures ok <==> sHandle
      ensures ok <==> old(sHandle) || ((old(sLoaded) || loads) && FirstUsable(answers, 0).Some?)
      ensures State() == if old(sHandle) || (!old(sLoaded) && !loads) then old(State())
                         else FeatureOpened(old(State()).(loaded := true), answers)
    {
      if sHandle { return true; }
      if !sLoaded && !loads { return false; }
      sLoaded := true;
      var attempt, tried := 1, 0;
      while attempt <= 5
        invariant 1 <= attempt <= 6 && tried == 2 * (attempt - 1)
        invariant !sHandle && sLoaded
        invariant FirstUsable(answers, 0) == FirstUsable(answers, tried)
        invariant started == old(started) + HandlesIn(answers, tried)
        invariant stopped == old(stopped) + HandlesIn(answers, tried)
      {
        var path := 0;
        while path < 2
          invariant 0 <= path <= 2 && tried == 2 * (attempt - 1) + path
          invariant !sHandle && sLoaded
          invariant FirstUsable(answers, 0) == FirstUsable(answers, tried)
          invariant started == old(started) + HandlesIn(answers, tried)
          invariant stopped == old(stopped) + HandlesIn(answers, tried)
        {
          var a := answers[tried];
          tried := tried + 1;
          if a.handle { started := started + 1; }
          if a.ret == 0 && a.handle && a.buffer {
            sHandle := true;
            return true;
          }
          if a.handle { stopped := stopped + 1; }
          path := path + 1;
        }
        attempt := attempt + 1;
      }
      ok := false;
    }

    method Close()
      requires Conserved(State())
      modifies this
      ensures State() == Closed(old(State())) && started == stopped
    {
      if sHandle { stopped := stopped + 1; }
      sHandle := false;
    }
  }
}
