/**
 The camera source: the handles that start acquires and stop releases, and the one-frame mailbox between the camera
 callbacks and nextFrame. Frames are values of any type; the NDK calls are oracles.
 */
module Camera {
  import opened Wrappers
  import opened Traces

  // ----- Handles

  /** Which of the eight pointers are non-null. */
  datatype Handles = Handles(
    preview: bool, device: bool, reader: bool, outputs: bool,
    sessionOutput: bool, target: bool, request: bool, session: bool)

  const NO_HANDLES: Handles := Handles(false, false, false, false, false, false, false, false)

  /**
   How the calls inside one start turn out. The source does not check the four creations in the middle: one that fails
   leaves its pointer as it was.
   */
  datatype StartOutcome = StartOutcome(
    frontCamera: bool, opens: bool, reader: bool,
    outputs: bool, sessionOutput: bool, request: bool, target: bool,
    session: bool, repeating: bool)

  function Stopped(h: Handles): Handles {
    var kept := NO_HANDLES.(target := h.target && !h.request);
    kept.(sessionOutput := h.sessionOutput && !h.outputs)
  }

  predicate StartSucceeds(o: StartOutcome) {
    o.frontCamera && o.opens && o.reader && o.session && o.repeating
  }

  /** The handles after start has acquired everything it gets to, before any clean-up. */
  function Opened(h: Handles, o: StartOutcome): Handles {
    if !o.opens then h.(device := false)
    else if !o.reader then h.(device := true)
    else
      h.(device := true, reader := true,
         outputs := o.outputs || h.outputs, sessionOutput := o.sessionOutput || h.sessionOutput,
         request := o.request || h.request, target := o.target || h.target, session := o.session)
  }

  function Started(h: Handles, preview: bool, o: StartOutcome): Handles {
    if !o.frontCamera then h
    else
      var acquired := Opened(h.(preview := preview || h.preview), o);
      if StartSucceeds(o) then acquired else Stopped(acquired)
  }

  /** No handle that stop frees only together with another one has been left without it. */
  predicate Paired(h: Handles) {
    (h.target ==> h.request) && (h.sessionOutput ==> h.outputs)
  }

  predicate PairedOutcome(o: StartOutcome) {
    (o.target ==> o.request) && (o.sessionOutput ==> o.outputs)
  }

  /** stop frees every handle exactly when the output target and session output still have their owners. */
  lemma StopFreesAllIff(h: Handles)
    ensures Stopped(h) == NO_HANDLES <==> Paired(h)
  {
  }

  /** start got as far as its unchecked creations, and a target (session output) was created without its owner. */
  predicate Leaks(o: StartOutcome) {
    o.frontCamera && o.opens && o.reader && !PairedOutcome(o)
  }

  /** The handles after a start that failed, or that succeeded and was stopped again. */
  function Used(h: Handles, preview: bool, o: StartOutcome): Handles {
    if StartSucceeds(o) then Stopped(Started(h, preview, o)) else Started(h, preview, o)
  }

  /** A start that fails, at whichever call, or is stopped later, leaves nothing held exactly when it does not leak. */
  lemma NothingHeldIff(preview: bool, o: StartOutcome)
    ensures Used(NO_HANDLES, preview, o) == NO_HANDLES <==> !Leaks(o)
  {
  }

  // ----- Native objects

  /** One pointer: whether it holds an object, and how many it was given, freed, and lost by being overwritten. */
  datatype Slot = Slot(held: bool, created: nat, freed: nat, lost: nat)

  const NEW_SLOT: Slot := Slot(false, 0, 0, 0)

  /** Every object the pointer was ever given is freed, lost, or the one it holds. */
  predicate Conserved(p: Slot) {
    p.created == p.freed + p.lost + if p.held then 1 else 0
  }

  function Filled(p: Slot): Slot {
    Slot(true, p.created + 1, p.freed, p.lost + if p.held then 1 else 0)
  }

  function FilledIf(p: Slot, works: bool): Slot {
    if works then Filled(p) else p
  }

  function Freed(p: Slot): Slot {
    if p.held then p.(held := false, freed := p.freed + 1) else p
  }

  /** Set to null without freeing. */
  function Dropped(p: Slot): Slot {
    if p.held then p.(held := false, lost := p.lost + 1) else p
  }

  datatype Objects = Objects(
    preview: Slot, device: Slot, reader: Slot, outputs: Slot,
    sessionOutput: Slot, target: Slot, request: Slot, session: Slot)

  const NO_OBJECTS: Objects := Objects(NEW_SLOT, NEW_SLOT, NEW_SLOT, NEW_SLOT, NEW_SLOT, NEW_SLOT, NEW_SLOT, NEW_SLOT)

  function HandlesOf(m: Objects): Handles {
    Handles(m.preview.held, m.device.held, m.reader.held, m.outputs.held,
            m.sessionOutput.held, m.target.held, m.request.held, m.session.held)
  }

  predicate AllConserved(m: Objects) {
    && Conserved(m.preview) && Conserved(m.device) && Conserved(m.reader) && Conserved(m.outputs)
    && Conserved(m.sessionOutput) && Conserved(m.target) && Conserved(m.request) && Conserved(m.session)
  }

  predicate AllFreed(m: Objects) {
    && m.preview.created == m.preview.freed && m.device.created == m.device.freed
    && m.reader.created == m.reader.freed && m.outputs.created == m.outputs.freed
    && m.sessionOutput.created == m.sessionOutput.freed && m.target.created == m.target.freed
    && m.request.created == m.request.freed && m.session.created == m.session.freed
  }

  predicate NoneLost(m: Objects) {
    && m.preview.lost == m.device.lost == m.reader.lost == m.outputs.lost == 0
    && m.sessionOutput.lost == m.target.lost == m.request.lost == m.session.lost == 0
  }

  function StopObjects(m: Objects): Objects {
    Objects(Freed(m.preview), Freed(m.device), Freed(m.reader), Freed(m.outputs),
            if m.outputs.held then Freed(m.sessionOutput) else m.sessionOutput,
            if m.request.held then Freed(m.target) else m.target,
            Freed(m.request), Freed(m.session))
  }

  function OpenObjects(m: Objects, o: StartOutcome): Objects {
    if !o.opens then m.(device := Dropped(m.device))
    else if !o.reader then m.(device := Filled(m.device))
    else
      Objects(m.preview, Filled(m.device), Filled(m.reader), FilledIf(m.outputs, o.outputs),
              FilledIf(m.sessionOutput, o.sessionOutput), FilledIf(m.target, o.target), FilledIf(m.request, o.request),
              if o.session then Filled(m.session) else Dropped(m.session))
  }

  function StartObjects(m: Objects, preview: bool, o: StartOutcome): Objects {
    if !o.frontCamera then m
    else
      var acquired := OpenObjects(m.(preview := FilledIf(m.preview, preview)), o);
      if StartSucceeds(o) then acquired else StopObjects(acquired)
  }

  /** The handles are those of the objects held. */
  lemma StopHandles(m: Objects)
    ensures HandlesOf(StopObjects(m)) == Stopped(HandlesOf(m))
    ensures AllConserved(m) ==> AllConserved(StopObjects(m))
  {
  }

  lemma OpenHandles(m: Objects, o: StartOutcome)
    ensures HandlesOf(OpenObjects(m, o)) == Opened(HandlesOf(m), o)
  {
  }

  lemma SlotsConserved(p: Slot)
    requires Conserved(p)
    ensures Conserved(Filled(p)) && Conserved(Freed(p)) && Conserved(Dropped(p))
  {
  }

  lemma OpenConserves(m: Objects, o: StartOutcome)
    requires AllConserved(m)
    ensures AllConserved(OpenObjects(m, o))
  {
    SlotsConserved(m.device);
    SlotsConserved(m.reader);
    SlotsConserved(m.outputs);
    SlotsConserved(m.sessionOutput);
    SlotsConserved(m.target);
    SlotsConserved(m.request);
    SlotsConserved(m.session);
  }

  lemma StartHandles(m: Objects, preview: bool, o: StartOutcome)
    ensures HandlesOf(StartObjects(m, preview, o)) == Started(HandlesOf(m), preview, o)
    ensures AllConserved(m) ==> AllConserved(StartObjects(m, preview, o))
  {
    var m1 := m.(preview := FilledIf(m.preview, preview));
    PreviewHandles(m, preview);
    OpenHandles(m1, o);
    if AllConserved(m) { OpenConserves(m1, o); }
    StopHandles(OpenObjects(m1, o));
    var acquired := Opened(HandlesOf(m1), o);
    assert HandlesOf(StopObjects(OpenObjects(m1, o))) == Stopped(acquired);
  }

  lemma PreviewHandles(m: Objects, preview: bool)
    ensures var m1 := m.(preview := FilledIf(m.preview, preview));
            && HandlesOf(m1) == HandlesOf(m).(preview := preview || m.preview.held)
            && (AllConserved(m) ==> AllConserved(m1))
  {
  }

  datatype Use = StartUse(preview: bool, outcome: StartOutcome) | StopUse

  function Uses(uses: Trace<Use>): Objects {
    match uses
    case Empty => NO_OBJECTS
    case Then(before, StartUse(preview, o)) => StartObjects(Uses(before), preview, o)
    case Then(before, StopUse) => StopObjects(Uses(before))
  }

  /**
   Over any run of starts and stops, in any order and with any outcomes, every native object that a pointer was ever
   given is freed, held, or lost to an overwritten pointer.
   */
  lemma {:induction false} ObjectsConserved(uses: Trace<Use>)
    ensures AllConserved(Uses(uses))
  {
    match uses
    case Empty =>
    case Then(before, StartUse(preview, o)) =>
      ObjectsConserved(before);
      StartHandles(Uses(before), preview, o);
    case Then(before, StopUse) =>
      ObjectsConserved(before);
      StopHandles(Uses(before));
  }

  /** The camera is running after these uses. */
  predicate Running(uses: Trace<Use>) {
    uses.Then? && uses.last.StartUse? && StartSucceeds(uses.last.outcome)
  }

  /** No start leaks, and none happens while the camera is running. */
  predicate Orderly(uses: Trace<Use>) {
    match uses
    case Empty => true
    case Then(before, StartUse(_, o)) => Orderly(before) && !Running(before) && !Leaks(o)
    case Then(before, StopUse) => Orderly(before)
  }

  lemma OrderlyStart(m: Objects, preview: bool, o: StartOutcome)
    requires HandlesOf(m) == NO_HANDLES && NoneLost(m) && !Leaks(o)
    ensures NoneLost(StartObjects(m, preview, o)) && Paired(HandlesOf(StartObjects(m, preview, o)))
    ensures !StartSucceeds(o) ==> HandlesOf(StartObjects(m, preview, o)) == NO_HANDLES
  {
    StartHandles(m, preview, o);
    NothingHeldIff(preview, o);
  }

  /** Over orderly runs nothing is ever lost, and whenever the camera is not running all that was created is freed. */
  lemma {:induction false} NothingLost(uses: Trace<Use>)
    requires Orderly(uses)
    ensures NoneLost(Uses(uses)) && Paired(HandlesOf(Uses(uses)))
    ensures !Running(uses) ==> HandlesOf(Uses(uses)) == NO_HANDLES && AllFreed(Uses(uses))
  {
    ObjectsConserved(uses);
    match uses
    case Empty =>
    case Then(before, StartUse(preview, o)) =>
      NothingLost(before);
      OrderlyStart(Uses(before), preview, o);
    case Then(before, StopUse) =>
      NothingLost(before);
      StopHandles(Uses(before));
      StopFreesAllIff(HandlesOf(Uses(before)));
  }

  /**
   What a leak turns into: between operations only a target or a session output can still be held, and the next start
   loses it for good exactly when it gets as far as creating another one.
   */
  lemma LeftoverLostIff(m: Objects, preview: bool, o: StartOutcome)
    requires NoneLost(m) && Stopped(HandlesOf(m)) == HandlesOf(m)
    ensures !NoneLost(StartObjects(m, preview, o)) <==>
            && o.frontCamera && o.opens && o.reader
            && ((m.target.held && o.target) || (m.sessionOutput.held && o.sessionOutput))
  {
    assert !m.preview.held && !m.device.held && !m.reader.held && !m.outputs.held && !m.request.held && !m.session.held;
  }

  /** A leak: the request cannot be created, the target can, and the session then fails. */
  lemma UnpairedTargetLeaks()
    ensures var o := StartOutcome(true, true, true, true, true, false, true, true, false);
            Started(NO_HANDLES, false, o).target && !StartSucceeds(o)
  {
  }

  // ----- Mailbox

  /** A wake-up inside nextFrame: what shouldStop answers, and the clock. */
  datatype Wake = Wake(stop: bool, now: int)

  /** A returned frame: when it was captured (start count, index since that start) and how the call got it. */
  datatype Taken<F> = Taken(epoch: nat, index: nat, frame: F, captured: nat, deadline: int, wake: Option<Wake>)

  /**
   `captured` lists all frames stored since each start; `slot` is the index of the stored frame in the last list;
   `waiting` is the deadline of a nextFrame call that has not returned. These and `taken` are history.
   */
  datatype Mailbox<F> = Mailbox(
    frame: Option<F>, available: bool, failed: bool,
    slot: nat, captured: seq<seq<F>>, waiting: Option<int>, taken: seq<Taken<F>>)

  /** One critical section under the camera's mutex. */
  datatype Action<F> =
    | Start                     // start resets the flags
    | Deliver(frame: F)         // onImageAvailable
    | Fail                      // onDisconnected, onError
    | Call(deadline: int)       // nextFrame takes the lock
    | Woken(wake: Wake)         // nextFrame wakes up from its wait

  function NewMailbox<F>(): Mailbox<F> {
    Mailbox(None, false, false, 0, [[]], None, [])
  }

  /** Frames stored since the last start. */
  function Current<F>(m: Mailbox<F>): seq<F>
    requires m.captured != []
  {
    m.captured[|m.captured| - 1]
  }

  /** The loop head of nextFrame: fail, take the frame, or wait. */
  function Look<F>(m: Mailbox<F>, deadline: int, wake: Option<Wake>): Mailbox<F>
    requires m.captured != []
  {
    if m.failed then m.(waiting := None)
    else if m.available && m.frame.Some? then
      m.(available := false, frame := None, waiting := None,
         taken := m.taken + [Taken(|m.captured| - 1, m.slot, m.frame.value, |Current(m)|, deadline, wake)])
    else m.(waiting := Some(deadline))
  }

  /** Calls nest as in the source: start and a second nextFrame cannot happen inside a waiting nextFrame. */
  function Act<F>(m: Mailbox<F>, a: Action<F>): (r: Mailbox<F>)
    requires m.captured != []
    ensures r.captured != []
  {
    match a
    case Start =>
      if m.waiting.Some? then m else m.(available := false, failed := false, captured := m.captured + [[]])
    case Deliver(f) =>
      m.(frame := Some(f), available := true, slot := |Current(m)|,
         captured := m.captured[|m.captured| - 1 := Current(m) + [f]])
    case Fail => m.(failed := true)
    case Call(deadline) => if m.waiting.Some? then m else Look(m, deadline, None)
    case Woken(w) =>
      if m.waiting.None? then m
      else if w.stop || w.now >= m.waiting.value then m.(waiting := None)
      else Look(m, m.waiting.value, Some(w))
  }

  /** The mailbox after a run of critical sections from the beginning. */
  function Run<F>(actions: Trace<Action<F>>): (r: Mailbox<F>)
    ensures r.captured != []
  {
    match actions
    case Empty => NewMailbox()
    case Then(before, a) => Act(Run(before), a)
  }

  /** A returned frame was the newest stored one, of an unfailed camera; a call that waited had woken up in time. */
  ghost predicate Fresh<F>(m: Mailbox<F>, t: Taken<F>) {
    && t.epoch < |m.captured|
    && t.index < |m.captured[t.epoch]| && m.captured[t.epoch][t.index] == t.frame
    && t.index + 1 == t.captured
    && (t.wake.Some? ==> !t.wake.value.stop && t.wake.value.now < t.deadline)
  }

  predicate Before<F>(t: Taken<F>, u: Taken<F>) {
    t.epoch < u.epoch || (t.epoch == u.epoch && t.index < u.index)
  }

  ghost predicate Sound<F(!new)>(m: Mailbox<F>) {
    && m.captured != []
    && (m.available ==> m.frame.Some? && m.slot + 1 == |Current(m)| && Current(m)[m.slot] == m.frame.value)
    && (forall t :: t in m.taken ==> Fresh(m, t))
    && (forall i, j :: 0 <= i < j < |m.taken| ==> Before(m.taken[i], m.taken[j]))
    && (m.available ==> forall t :: t in m.taken && t.epoch == |m.captured| - 1 ==> t.index < m.slot)
  }

  lemma ActKeepsSound<F(!new)>(m: Mailbox<F>, a: Action<F>)
    requires Sound(m)
    ensures Sound(Act(m, a))
  {
    var r := Act(m, a);
    forall t | t in m.taken
      ensures Fresh(r, t)
    {
      assert Fresh(m, t);
    }
    if r.taken != m.taken {
      forall t | t in m.taken
        ensures Before(t, r.taken[|m.taken|])
      {
        assert Fresh(m, t);
      }
    }
  }

  /**
   Over every interleaving of camera callbacks, starts and nextFrame calls: the frames returned are a strictly
   increasing subsequence of the frames stored since their start, each the newest one when it was taken, and a call
   that had to wait took its frame only on a wake-up before its deadline that was not told to stop.
   */
  lemma {:induction false} ReturnedFramesAreFresh<F(!new)>(actions: Trace<Action<F>>)
    ensures Sound(Run(actions))
    ensures forall t :: t in Run(actions).taken ==> Fresh(Run(actions), t)
    ensures var taken := Run(actions).taken; forall i, j :: 0 <= i < j < |taken| ==> Before(taken[i], taken[j])
  {
    match actions
    case Empty =>
    case Then(before, a) =>
      ReturnedFramesAreFresh(before);
      ActKeepsSound(Run(before), a);
  }

  /** `later` continues `earlier` without starting the camera again. */
  ghost predicate ContinuesUnstarted<F>(earlier: Trace<Action<F>>, later: Trace<Action<F>>) {
    match later
    case Empty => earlier == later
    case Then(before, a) => earlier == later || (!a.Start? && ContinuesUnstarted(earlier, before))
  }

  /** After a failure no frame is returned until the camera is started again. */
  lemma {:induction false} NoFrameAfterFailure<F>(earlier: Trace<Action<F>>, later: Trace<Action<F>>)
    requires Run(earlier).failed && ContinuesUnstarted(earlier, later)
    ensures Run(later).failed && Run(later).taken == Run(earlier).taken
  {
    if earlier == later {
    } else {
      NoFrameAfterFailure(earlier, later.before);
    }
  }

  // ----- The mailbox, in terms of the critical sections alone

  /** The deadline of a nextFrame call that has not returned. */
  function InCall<F>(actions: Trace<Action<F>>): Option<int>
    decreases actions, 0
  {
    match actions
    case Empty => None
    case Then(before, Call(deadline)) =>
      if InCall(before).Some? then InCall(before)
      else if Broken(before) || Unread(before) then None
      else Some(deadline)
    case Then(before, Woken(w)) =>
      if InCall(before).None? || w.stop || w.now >= InCall(before).value || Broken(before) || Unread(before) then None
      else InCall(before)
    case Then(before, _) => InCall(before)
  }

  /** The last action starts the camera: a start cannot happen inside a nextFrame call. */
  predicate Starts<F>(actions: Trace<Action<F>>)
    decreases actions, 0
  {
    actions.Then? && actions.last.Start? && InCall(actions.before).None?
  }

  /** The camera has failed since it was last started. */
  predicate Broken<F>(actions: Trace<Action<F>>)
    decreases actions, 1
  {
    actions.Then? && (actions.last.Fail? || (Broken(actions.before) && !Starts(actions)))
  }

  /** The last action is a nextFrame call that begins, or wakes up in time and uncancelled. */
  predicate Looks<F>(actions: Trace<Action<F>>)
    decreases actions, 0
  {
    actions.Then? &&
    match actions.last
    case Call(_) => InCall(actions.before).None?
    case Woken(w) => InCall(actions.before).Some? && !w.stop && w.now < InCall(actions.before).value
    case _ => false
  }

  /** The last action takes a frame: the call looks, the camera is unbroken, and there is an unread frame. */
  predicate Takes<F>(actions: Trace<Action<F>>)
    decreases actions, 1
  {
    Looks(actions) && !Broken(actions.before) && Unread(actions.before)
  }

  /** Some frame was delivered since the camera was last started and a frame last taken. */
  predicate Unread<F>(actions: Trace<Action<F>>)
    decreases actions, 2
  {
    actions.Then? &&
    (actions.last.Deliver? || (Unread(actions.before) && !Starts(actions) && !Takes(actions)))
  }

  /** The frame delivered last. */
  function LastDelivered<F>(actions: Trace<Action<F>>): Option<F> {
    match actions
    case Empty => None
    case Then(_, Deliver(f)) => Some(f)
    case Then(before, _) => LastDelivered(before)
  }

  /** The frames taken, each the one delivered last at the time. */
  function TakenFrames<F>(actions: Trace<Action<F>>): seq<Option<F>> {
    match actions
    case Empty => []
    case Then(before, _) => TakenFrames(before) + if Takes(actions) then [LastDelivered(before)] else []
  }

  function FramesOf<F>(taken: seq<Taken<F>>): seq<Option<F>> {
    seq(|taken|, i requires 0 <= i < |taken| => Some(taken[i].frame))
  }

  lemma FramesPush<F>(taken: seq<Taken<F>>, t: Taken<F>)
    ensures FramesOf(taken + [t]) == FramesOf(taken) + [Some(t.frame)]
  {
  }

  /** The mailbox has the call, the failure and the frame that the run tells of. */
  predicate Tells<F(==)>(m: Mailbox<F>, actions: Trace<Action<F>>) {
    && m.waiting == InCall(actions) && m.failed == Broken(actions) && m.available == Unread(actions)
    && (m.available ==> m.frame == LastDelivered(actions) && m.frame.Some?)
  }

  /** What one more action does to what a run tells. */
  lemma Retold<F>(before: Trace<Action<F>>, a: Action<F>)
    ensures var now := Then(before, a);
            && (Starts(now) <==> a.Start? && InCall(before).None?)
            && (Broken(now) <==> a.Fail? || (Broken(before) && !Starts(now)))
            && (Takes(now) <==> Looks(now) && !Broken(before) && Unread(before))
            && (Unread(now) <==> a.Deliver? || (Unread(before) && !Starts(now) && !Takes(now)))
            && (Looks(now) ==> a.Call? || a.Woken?)
  {
  }

  lemma OtherTells<F>(m: Mailbox<F>, before: Trace<Action<F>>, a: Action<F>)
    requires m.captured != [] && Tells(m, before) && !a.Call? && !a.Woken?
    ensures Tells(Act(m, a), Then(before, a)) && !Takes(Then(before, a)) && Act(m, a).taken == m.taken
  {
    Retold(before, a);
  }

  lemma CallTells<F>(m: Mailbox<F>, before: Trace<Action<F>>, deadline: int)
    requires m.captured != [] && Tells(m, before)
    ensures var now, r := Then(before, Call(deadline)), Act(m, Call(deadline));
            Tells(r, now) && (if Takes(now) then |r.taken| == |m.taken| + 1 else r.taken == m.taken)
  {
    Retold(before, Call(deadline));
  }

  lemma WokenTells<F>(m: Mailbox<F>, before: Trace<Action<F>>, w: Wake)
    requires m.captured != [] && Tells(m, before)
    ensures var now, r := Then(before, Woken(w)), Act(m, Woken(w));
            Tells(r, now) && (if Takes(now) then |r.taken| == |m.taken| + 1 else r.taken == m.taken)
  {
    Retold(before, Woken(w));
  }

  /**
   After any run of critical sections: a call is outstanding, the camera is failed and a frame is waiting exactly as
   the run tells; and the frames returned so far are exactly the frames delivered last when a call looked, unfailed,
   with a frame delivered since the last start and the last taking.
   */
  lemma {:induction false} MailboxTells<F>(actions: Trace<Action<F>>)
    ensures Tells(Run(actions), actions)
    ensures FramesOf(Run(actions).taken) == TakenFrames(actions)
  {
    match actions
    case Empty =>
    case Then(before, a) =>
      MailboxTells(before);
      var m := Run(before);
      match a {
        case Call(deadline) => CallTells(m, before, deadline);
        case Woken(w) => WokenTells(m, before, w);
        case _ => OtherTells(m, before, a);
      }
      TakingTells(m, a);
  }

  /** A critical section that returns a frame returns the one that waits. */
  lemma TakingTells<F>(m: Mailbox<F>, a: Action<F>)
    requires m.captured != []
    ensures var r := Act(m, a);
            |r.taken| == |m.taken| + 1 ==>
              m.available && m.frame.Some? && FramesOf(r.taken) == FramesOf(m.taken) + [m.frame]
  {
    var r := Act(m, a);
    if |r.taken| == |m.taken| + 1 { FramesPush(m.taken, r.taken[|m.taken|]); }
  }

  /**
   A call that begins while none is outstanding returns a frame at once exactly when the camera has not failed since
   it was started, and a frame was delivered since it was started and a frame last taken; and it is the last delivered.
   */
  lemma CallTakesIff<F>(actions: Trace<Action<F>>, deadline: int)
    requires InCall(actions).None?
    ensures var r := Run(Then(actions, Call(deadline)));
            var before := FramesOf(Run(actions).taken);
            if !Broken(actions) && Unread(actions)
            then LastDelivered(actions).Some? && FramesOf(r.taken) == before + [LastDelivered(actions)]
            else FramesOf(r.taken) == before
  {
    MailboxTells(actions);
    MailboxTells(Then(actions, Call(deadline)));
  }

  // ----- The camera object

  /** What other threads do while a call waits, and the wake-up that ends the wait. */
  datatype Wait<F> = Wait(meanwhile: seq<Action<F>>, wake: Wake)

  predicate FromCallbacks<F>(actions: seq<Action<F>>) {
    forall i :: 0 <= i < |actions| ==> actions[i].Deliver? || actions[i].Fail?
  }

  /** A run continued by the first n of some actions. */
  function Continued<F>(run: Trace<Action<F>>, actions: seq<Action<F>>, n: nat): Trace<Action<F>>
    requires n <= |actions|
  {
    if n == 0 then run else Then(Continued(run, actions, n - 1), actions[n - 1])
  }

  /** A run continued by one nextFrame call that takes its first n waits as scheduled. */
  function Called<F>(run: Trace<Action<F>>, deadline: int, waits: seq<Wait<F>>, n: nat): Trace<Action<F>>
    requires n <= |waits|
  {
    if n == 0 then Then(run, Call(deadline))
    else
      var w := waits[n - 1];
      Then(Continued(Called(run, deadline, waits, n - 1), w.meanwhile, |w.meanwhile|), Woken(w.wake))
  }

  class CameraSource<F> {
    var handles: Handles
    var mFrame: Option<F>
    var mFrameAvailable: bool
    var mFailed: bool
    ghost var run: Trace<Action<F>>

    ghost function History(): (m: Mailbox<F>)
      reads this`run
      ensures m.captured != []
    {
      Run(run)
    }

    /** The fields are those of the mailbox that the critical sections so far lead to. */
    ghost predicate Valid()
      reads this`mFrame, this`mFrameAvailable, this`mFailed, this`run
    {
      && History().frame == mFrame && History().available == mFrameAvailable && History().failed == mFailed
      && (mFrameAvailable ==> mFrame.Some?)
    }

    constructor ()
      ensures Valid() && run == Empty && handles == NO_HANDLES
    {
      handles := NO_HANDLES;
      mFrame, mFrameAvailable, mFailed := None, false, false;
      run := Empty;
    }

    method Stop()
      modifies this`handles
      ensures handles == Stopped(old(handles))
    {
      if handles.session { handles := handles.(session := false); }
      if handles.device { handles := handles.(device := false); }
      if handles.request { handles := handles.(target := false, request := false); }
      if handles.outputs { handles := handles.(sessionOutput := false, outputs := false); }
      if handles.reader { handles := handles.(reader := false); }
      if handles.preview { handles := handles.(preview := false); }
    }

    method StartCamera(preview: bool, o: StartOutcome) returns (ok: bool)
      requires Valid() && History().waiting.None?
      modifies this
      ensures Valid()
      ensures ok == (o.frontCamera && o.opens && o.reader && o.session && o.repeating)
      ensures handles == Started(old(handles), preview, o)
      ensures run == if o.frontCamera then Then(old(run), Start) else old(run)
    {
      if !o.frontCamera { return false; }
      if preview { handles := handles.(preview := true); }
      ResetFlags();
      ok := OpenSession(o);
      if !ok { Stop(); }
    }

    method ResetFlags()
      requires Valid() && History().waiting.None?
      modifies this`mFrameAvailable, this`mFailed, this`run
      ensures Valid() && run == Then(old(run), Start)
    {
      mFrameAvailable, mFailed := false, false;
      run := Then(run, Start);
    }

    /** The acquiring part of start, up to the first call whose failure it checks. */
    method OpenSession(o: StartOutcome) returns (ok: bool)
      modifies this`handles
      ensures ok == (o.opens && o.reader && o.session && o.repeating)
      ensures handles == Opened(old(handles), o)
    {
      handles := handles.(device := o.opens);
      if !o.opens { return false; }
      if !o.reader { return false; }
      handles := handles.(reader := true);
      if o.outputs { handles := handles.(outputs := true); }
      if o.sessionOutput { handles := handles.(sessionOutput := true); }
      if o.request { handles := handles.(request := true); }
      if o.target { handles := handles.(target := true); }
      handles := handles.(session := o.session);
      ok := o.session && o.repeating;
    }

    method OnImageAvailable(frame: F)
      requires Valid()
      modifies this`mFrame, this`mFrameAvailable, this`run
      ensures Valid() && run == Then(old(run), Deliver(frame))
    {
      mFrame := Some(frame);
      mFrameAvailable := true;
      run := Then(run, Deliver(frame));
    }

    /** onDisconnected and onError */
    method OnFailure()
      requires Valid()
      modifies this`mFailed, this`run
      ensures Valid() && run == Then(old(run), Fail)
    {
      mFailed := true;
      run := Then(run, Fail);
    }

    /** The camera's own threads at work while nextFrame has released the lock. */
    method Meanwhile(actions: seq<Action<F>>)
      requires Valid() && FromCallbacks(actions)
      modifies this`mFrame, this`mFrameAvailable, this`mFailed, this`run
      ensures Valid() && run == Continued(old(run), actions, |actions|)
      ensures History().waiting == old(History().waiting) && History().taken == old(History().taken)
    {
      var i := 0;
      while i < |actions|
        invariant 0 <= i <= |actions|
        invariant Valid() && run == Continued(old(run), actions, i)
        invariant History().waiting == old(History().waiting) && History().taken == old(History().taken)
      {
        if actions[i].Deliver? {
          OnImageAvailable(actions[i].frame);
        } else {
          OnFailure();
        }
        i := i + 1;
      }
    }

    /**
     nextFrame, with its waits scheduled. `returned` is false when the schedule ends while the call still waits;
     `used` is the number of waits it took.
     */
    method NextFrame(deadline: int, waits: seq<Wait<F>>) returns (returned: bool, frame: Option<F>, used: nat)
      requires Valid() && History().waiting.None?
      requires forall i :: 0 <= i < |waits| ==> FromCallbacks(waits[i].meanwhile)
      modifies this`mFrame, this`mFrameAvailable, this`mFailed, this`run
      ensures Valid() && used <= |waits|
      ensures run == Called(old(run), deadline, waits, used)
      ensures returned <==> History().waiting.None?
      ensures !returned ==> used == |waits|
      ensures if frame.None? then History().taken == old(History().taken)
              else returned && |History().taken| == |old(History().taken)| + 1 &&
                   History().taken[|old(History().taken)|].frame == frame.value
    {
      used, frame := 0, None;
      ghost var section: Action<F> := Call(deadline);
      while !mFrameAvailable && !mFailed
        invariant 0 <= used <= |waits|
        invariant Valid() && History().taken == old(History().taken)
        invariant Then(run, section) == Called(old(run), deadline, waits, used)
        invariant if used == 0 then section == Call(deadline) && History().waiting.None?
                  else section.Woken? && !section.wake.stop && section.wake.now < deadline &&
                       History().waiting == Some(deadline)
        decreases |waits| - used
      {
        run := Then(run, section);
        if used == |waits| { return false, None, used; }
        var w := waits[used];
        Meanwhile(w.meanwhile);
        section := Woken(w.wake);
        used := used + 1;
        if w.wake.stop || w.wake.now >= deadline {
          run := Then(run, section);
          return true, None, used;
        }
      }
      run := Then(run, section);
      if mFailed { return true, None, used; }
      mFrameAvailable := false;
      frame := mFrame;
      mFrame := None;
      returned := true;
    }
  }
}
