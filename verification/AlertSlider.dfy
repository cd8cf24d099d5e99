/**
 The alert slider's dialog handler (AlertSliderPlugin.NotificationHandler) over a timed message queue. All messages
 are posted and dispatched on the main thread; time passes only between dispatches.
 */
module AlertSlider {
  import opened Wrappers
  import opened Traces

  const DIALOG_TIMEOUT: int := 3000
  const NONE: int := -1

  datatype Kind = KShow | KDismiss | KReset | KUpdate | KRecreate

  datatype Info = Info(position: int, mode: int)

  datatype Message = Message(kind: Kind, info: Option<Info>, due: int)

  /** The looper's queue, ordered by due time; messages due at the same time stay in posting order. */
  datatype Queue = Idle | Next(head: Message, rest: Queue)

  function Enqueue(q: Queue, m: Message): Queue {
    if q.Idle? || m.due < q.head.due then Next(m, q) else Next(q.head, Enqueue(q.rest, m))
  }

  /** removeMessages */
  function Without(q: Queue, k: Kind): Queue {
    match q
    case Idle => Idle
    case Next(m, rest) => if m.kind == k then Without(rest, k) else Next(m, Without(rest, k))
  }

  /** The four configuration values whose change recreates the dialog. */
  datatype Config = Config(density: int, rotation: int, smallestWidth: int, uiMode: int)

  /**
   `visible` and `face` are the current dialog's visibility and state, `screen` the context's configuration;
   `refreshed` remembers when the timeout was last started, and `pulses` counts the doze broadcasts.
   */
  datatype Handler = Handler(
    now: int, queue: Queue,
    showing: bool, visible: bool, face: Option<Info>, lastInfo: Option<Info>,
    config: Config, screen: Config, pulseEnabled: bool, pulses: nat, refreshed: int)

  function Pulsed(s: Handler): Handler {
    if s.pulseEnabled then s.(pulses := s.pulses + 1) else s
  }

  function TimeoutReset(s: Handler): Handler {
    s.(queue := Enqueue(Without(s.queue, KDismiss), Message(KDismiss, None, s.now + DIALOG_TIMEOUT)),
       refreshed := s.now)
  }

  /** The setter of `showing`. */
  function ShowingSet(s: Handler, value: bool): Handler {
    if s.showing == value then s
    else
      var quiet := s.(queue := Without(Without(Without(s.queue, KShow), KDismiss), KReset));
      var moved := if value then Pulsed(TimeoutReset(quiet)) else quiet;
      moved.(visible := value, showing := value)
  }

  function Updated(s: Handler, info: Info): Handler {
    Pulsed(TimeoutReset(s)).(lastInfo := Some(info), face := Some(info))
  }

  function Recreated(s: Handler): Handler {
    if s.config == s.screen then s
    else
      var hidden := ShowingSet(s, false).(visible := false, face := s.lastInfo);
      (if s.showing then ShowingSet(hidden, true) else hidden).(config := s.screen)
  }

  function Handled(s: Handler, m: Message): Handler {
    match m.kind
    case KShow => ShowingSet(s, true)
    case KDismiss => ShowingSet(s, false)
    case KReset => TimeoutReset(s)
    case KUpdate => if m.info.Some? then Updated(s, m.info.value) else s
    case KRecreate => Recreated(s)
  }

  datatype Event =
    | Tick(millis: nat)                        // time passes
    | SliderMoved(position: int, mode: int)    // CHANGED_ACTION broadcast
    | ScreenChanged(screen: Config)            // ACTION_CONFIGURATION_CHANGED broadcast
    | Dispatch                                 // the looper takes the first message, if it is due

  function Step(s: Handler, e: Event): Handler {
    match e
    case Tick(d) => s.(now := s.now + d)
    case SliderMoved(position, mode) =>
      if mode == NONE then s
      else
        var q := Enqueue(s.queue, Message(KUpdate, Some(Info(position, mode)), s.now));
        s.(queue := Enqueue(q, Message(KShow, None, s.now)))
    case ScreenChanged(screen) => s.(screen := screen, queue := Enqueue(s.queue, Message(KRecreate, None, s.now)))
    case Dispatch =>
      if s.queue.Idle? || s.queue.head.due > s.now then s
      else Handled(s.(queue := s.queue.rest), s.queue.head)
  }

  function Created(now: int, screen: Config, pulseEnabled: bool): Handler {
    Handler(now, Idle, false, false, None, None, screen, screen, pulseEnabled, 0, now)
  }

  function Run(s: Handler, events: Trace<Event>): Handler {
    match events
    case Empty => s
    case Then(before, e) => Step(Run(s, before), e)
  }

  // ----- The handler object

  class NotificationHandler {
    var now: int
    var queue: Queue
    var showing: bool
    var dialogVisible: bool
    var dialogState: Option<Info>
    var lastInfo: Option<Info>
    var current: Config
    var screen: Config
    var pulseEnabled: bool
    var pulses: nat
    ghost var refreshed: int
    ghost const created: Handler
    ghost var history: Trace<Event>

    ghost function State(): Handler
      reads this
    {
      Handler(now, queue, showing, dialogVisible, dialogState, lastInfo, current, screen, pulseEnabled, pulses,
              refreshed)
    }

    /** The handler is in the state that its history of broadcasts, dispatches and passing time leads to. */
    ghost predicate Reached()
      reads this
    {
      && created == Created(created.now, created.screen, created.pulseEnabled)
      && State() == Run(created, history)
    }

    constructor (time: int, config: Config, pulse: bool)
      ensures Reached() && created == Created(time, config, pulse) && history == Empty
    {
      now, queue, showing, dialogVisible, dialogState, lastInfo := time, Idle, false, false, None, None;
      current, screen, pulseEnabled, pulses, refreshed := config, config, pulse, 0, time;
      created, history := Created(time, config, pulse), Empty;
    }

    method LaunchDozePulse()
      modifies this`pulses
      ensures State() == Pulsed(old(State()))
    {
      if pulseEnabled { pulses := pulses + 1; }
    }

    method HandleResetTimeout()
      modifies this`queue, this`refreshed
      ensures State() == TimeoutReset(old(State()))
    {
      queue := Without(queue, KDismiss);
      queue := Enqueue(queue, Message(KDismiss, None, now + DIALOG_TIMEOUT));
      refreshed := now;
    }

    method SetShowing(value: bool)
      modifies this`queue, this`refreshed, this`pulses, this`dialogVisible, this`showing
      ensures State() == ShowingSet(old(State()), value)
    {
      if showing != value {
        queue := Without(queue, KShow);
        queue := Without(queue, KDismiss);
        queue := Without(queue, KReset);
        if value {
          HandleResetTimeout();
          LaunchDozePulse();
          dialogVisible := true;
        } else {
          dialogVisible := false;
        }
      }
      showing := value;
    }

    method HandleUpdate(info: Info)
      modifies this`queue, this`refreshed, this`pulses, this`dialogState, this`lastInfo
      ensures State() == Updated(old(State()), info)
    {
      lastInfo := Some(info);
      HandleResetTimeout();
      LaunchDozePulse();
      dialogState := Some(info);
    }

    method HandleRecreate()
      modifies this`queue, this`refreshed, this`pulses, this`dialogVisible, this`showing, this`dialogState, this`current
      ensures State() == Recreated(old(State()))
    {
      var densityChanged := screen.density != current.density;
      var layoutChanged := screen.smallestWidth != current.smallestWidth;
      var rotationChanged := screen.rotation != current.rotation;
      var themeChanged := screen.uiMode != current.uiMode;
      if densityChanged || layoutChanged || rotationChanged || themeChanged {
        var wasShowing := showing;
        SetShowing(false);
        dialogVisible, dialogState := false, None;
        if lastInfo.Some? { dialogState := lastInfo; }
        if wasShowing { SetShowing(true); }
        current := screen;
      }
    }

    method OnSliderMoved(position: int, mode: int)
      requires Reached()
      modifies this`queue, this`history
      ensures Reached() && history == Then(old(history), SliderMoved(position, mode))
      ensures mode == -1 ==> queue == old(queue)
    {
      history := Then(history, SliderMoved(position, mode));
      if mode == NONE { return; }
      queue := Enqueue(queue, Message(KUpdate, Some(Info(position, mode)), now));
      queue := Enqueue(queue, Message(KShow, None, now));
    }

    method OnScreenChanged(config: Config)
      requires Reached()
      modifies this`screen, this`queue, this`history
      ensures Reached() && history == Then(old(history), ScreenChanged(config))
    {
      screen := config;
      queue := Enqueue(queue, Message(KRecreate, None, now));
      history := Then(history, ScreenChanged(config));
    }

    method Elapse(millis: nat)
      requires Reached()
      modifies this`now, this`history
      ensures Reached() && history == Then(old(history), Tick(millis))
    {
      now := now + millis;
      history := Then(history, Tick(millis));
    }

    /** handleMessage */
    method Handle(m: Message)
      modifies this`queue, this`refreshed, this`pulses, this`dialogVisible, this`showing
      modifies this`dialogState, this`lastInfo, this`current
      ensures State() == Handled(old(State()), m)
    {
      match m.kind {
        case KShow => SetShowing(true);
        case KDismiss => SetShowing(false);
        case KReset => HandleResetTimeout();
        case KUpdate => if m.info.Some? { HandleUpdate(m.info.value); }
        case KRecreate => HandleRecreate();
      }
    }

    method DispatchNext()
      requires Reached()
      modifies this
      ensures Reached() && history == Then(old(history), Dispatch)
    {
      history := Then(history, Dispatch);
      if queue.Idle? || queue.head.due > now { return; }
      var m := queue.head;
      queue := queue.rest;
      Handle(m);
    }
  }

  // ----- Invariant

  /** Due times of the pending dismissals. */
  function Dues(q: Queue): seq<int> {
    match q
    case Idle => []
    case Next(m, rest) => if m.kind == KDismiss then [m.due] + Dues(rest) else Dues(rest)
  }

  predicate Sorted(q: Queue) {
    q.Next? ==> Sorted(q.rest) && (q.rest.Next? ==> q.head.due <= q.rest.head.due)
  }

  /** Only dismissals lie in the future, nothing posts a reset, and updates carry their info. */
  predicate Posted(q: Queue, now: int) {
    match q
    case Idle => true
    case Next(m, rest) =>
      && (m.kind != KDismiss ==> m.due <= now)
      && m.kind != KReset
      && (m.kind == KUpdate ==> m.info.Some?)
      && Posted(rest, now)
  }

  /**
   At most one dismissal is pending; while showing exactly one is, and it is always due 3000 ms after the timeout was
   last started; the dialog on screen is the one the handler believes to show, in the state of the last update.
   */
  predicate Inv(s: Handler) {
    && Sorted(s.queue) && Posted(s.queue, s.now)
    && |Dues(s.queue)| <= 1
    && (s.showing ==> |Dues(s.queue)| == 1)
    && (|Dues(s.queue)| == 1 ==> Dues(s.queue)[0] == s.refreshed + DIALOG_TIMEOUT)
    && s.refreshed <= s.now
    && s.visible == s.showing
    && s.face == s.lastInfo
  }

  lemma {:induction false} EnqueueKeeps(q: Queue, m: Message, now: int)
    requires Sorted(q) && Posted(q, now)
    requires m.kind != KReset && (m.kind != KDismiss ==> m.due <= now) && (m.kind == KUpdate ==> m.info.Some?)
    ensures Sorted(Enqueue(q, m)) && Posted(Enqueue(q, m), now)
    ensures m.kind != KDismiss ==> Dues(Enqueue(q, m)) == Dues(q)
    ensures m.kind == KDismiss && Dues(q) == [] ==> Dues(Enqueue(q, m)) == [m.due]
  {
    if q.Idle? || m.due < q.head.due {
    } else {
      EnqueueKeeps(q.rest, m, now);
    }
  }

  lemma {:induction false} WithoutKeeps(q: Queue, k: Kind, now: int)
    requires Sorted(q) && Posted(q, now)
    ensures Sorted(Without(q, k)) && Posted(Without(q, k), now)
    ensures q.Next? && Without(q, k).Next? ==> q.head.due <= Without(q, k).head.due
    ensures Dues(Without(q, k)) == if k == KDismiss then [] else Dues(q)
  {
    if q.Idle? {
    } else {
      WithoutKeeps(q.rest, k, now);
    }
  }

  lemma TimeoutResetKeeps(s: Handler)
    requires Sorted(s.queue) && Posted(s.queue, s.now)
    ensures var q := TimeoutReset(s).queue; Sorted(q) && Posted(q, s.now) && Dues(q) == [s.now + DIALOG_TIMEOUT]
  {
    WithoutKeeps(s.queue, KDismiss, s.now);
    EnqueueKeeps(Without(s.queue, KDismiss), Message(KDismiss, None, s.now + DIALOG_TIMEOUT), s.now);
  }

  /** The setter re-establishes the invariant even when the timeout of a shown dialog has just been taken out. */
  lemma ShowingSetKeeps(s: Handler, value: bool)
    requires Inv(s) || (s.showing && !value && Inv(s.(showing := false, visible := false)))
    ensures Inv(ShowingSet(s, value))
  {
    if s.showing != value {
      WithoutKeeps(s.queue, KShow, s.now);
      var q1 := Without(s.queue, KShow);
      WithoutKeeps(q1, KDismiss, s.now);
      var q2 := Without(q1, KDismiss);
      WithoutKeeps(q2, KReset, s.now);
      TimeoutResetKeeps(s.(queue := Without(q2, KReset)));
    }
  }

  lemma RecreatedKeeps(s: Handler)
    requires Inv(s)
    ensures Inv(Recreated(s))
  {
    if s.config != s.screen {
      ShowingSetKeeps(s, false);
      var hidden := ShowingSet(s, false).(visible := false, face := s.lastInfo);
      if s.showing { ShowingSetKeeps(hidden, true); }
    }
  }

  lemma DispatchKeeps(s: Handler)
    requires Inv(s) && s.queue.Next? && s.queue.head.due <= s.now
    ensures Inv(Step(s, Dispatch))
  {
    var m, s' := s.queue.head, s.(queue := s.queue.rest);
    match m.kind {
      case KShow => ShowingSetKeeps(s', true);
      case KDismiss =>
        assert Dues(s.queue) == [m.due] + Dues(s'.queue);
        ShowingSetKeeps(s', false);
      case KReset =>
      case KUpdate => TimeoutResetKeeps(s');
      case KRecreate => RecreatedKeeps(s');
    }
  }

  lemma LaterPosted(q: Queue, now: int, later: int)
    requires Posted(q, now) && now <= later
    ensures Posted(q, later)
  {
  }

  lemma StepKeeps(s: Handler, e: Event)
    requires Inv(s)
    ensures Inv(Step(s, e))
  {
    match e {
      case Tick(d) => LaterPosted(s.queue, s.now, s.now + d);
      case SliderMoved(position, mode) =>
        var m := Message(KUpdate, Some(Info(position, mode)), s.now);
        EnqueueKeeps(s.queue, m, s.now);
        EnqueueKeeps(Enqueue(s.queue, m), Message(KShow, None, s.now), s.now);
      case ScreenChanged(screen) => EnqueueKeeps(s.queue, Message(KRecreate, None, s.now), s.now);
      case Dispatch => if s.queue.Next? && s.queue.head.due <= s.now { DispatchKeeps(s); }
    }
  }

  /** The invariant holds in every state that any run of broadcasts, dispatches and passing time can reach. */
  lemma {:induction false} AlwaysInv(now: int, screen: Config, pulseEnabled: bool, events: Trace<Event>)
    ensures Inv(Run(Created(now, screen, pulseEnabled), events))
  {
    if events.Empty? {
    } else {
      AlwaysInv(now, screen, pulseEnabled, events.before);
      StepKeeps(Run(Created(now, screen, pulseEnabled), events.before), events.last);
    }
  }

  /** So it holds of every handler object, whatever has happened to it. */
  lemma HandlerGuarantees(h: NotificationHandler)
    requires h.Reached()
    ensures Inv(h.State())
  {
    AlwaysInv(h.created.now, h.created.screen, h.created.pulseEnabled, h.history);
  }

  // ----- When the dialog hides

  /** A shown dialog is hidden by nothing but the dispatch of its dismissal, 3000 ms or more after the last refresh. */
  lemma HidesOnlyOnTimeout(s: Handler, e: Event)
    requires Inv(s) && s.showing && !Step(s, e).showing
    ensures e.Dispatch? && s.queue.Next? && s.queue.head.kind == KDismiss
    ensures s.now >= s.refreshed + DIALOG_TIMEOUT
  {
  }

  function DueCount(q: Queue, now: int): nat {
    match q
    case Idle => 0
    case Next(m, rest) => (if m.due <= now then 1 else 0) + DueCount(rest, now)
  }

  lemma EnqueueDueCount(q: Queue, m: Message, now: int)
    ensures DueCount(Enqueue(q, m), now) == DueCount(q, now) + if m.due <= now then 1 else 0
  {
  }

  lemma WithoutDueCount(q: Queue, k: Kind, now: int)
    ensures DueCount(Without(q, k), now) <= DueCount(q, now)
  {
  }

  lemma TimeoutResetDueCount(s: Handler)
    ensures DueCount(TimeoutReset(s).queue, s.now) <= DueCount(s.queue, s.now)
  {
    WithoutDueCount(s.queue, KDismiss, s.now);
    EnqueueDueCount(Without(s.queue, KDismiss), Message(KDismiss, None, s.now + DIALOG_TIMEOUT), s.now);
  }

  lemma ShowingSetDueCount(s: Handler, value: bool)
    ensures DueCount(ShowingSet(s, value).queue, s.now) <= DueCount(s.queue, s.now)
  {
    WithoutDueCount(s.queue, KShow, s.now);
    WithoutDueCount(Without(s.queue, KShow), KDismiss, s.now);
    WithoutDueCount(Without(Without(s.queue, KShow), KDismiss), KReset, s.now);
    TimeoutResetDueCount(s.(queue := Without(Without(Without(s.queue, KShow), KDismiss), KReset)));
  }

  /** Handling a message makes no other message due: every dispatch brings the queue nearer to quiet. */
  lemma DispatchDueCount(s: Handler)
    requires s.queue.Next? && s.queue.head.due <= s.now
    ensures DueCount(Step(s, Dispatch).queue, s.now) < DueCount(s.queue, s.now)
    ensures Step(s, Dispatch).now == s.now
  {
    var s' := s.(queue := s.queue.rest);
    ShowingSetDueCount(s', true);
    ShowingSetDueCount(s', false);
    ShowingSetDueCount(ShowingSet(s', false).(visible := false, face := s'.lastInfo), true);
    TimeoutResetDueCount(s');
  }

  /** The looper runs until no message is due. */
  function Drained(s: Handler): Handler
    decreases DueCount(s.queue, s.now)
  {
    if s.queue.Idle? || s.queue.head.due > s.now then s
    else
      DispatchDueCount(s);
      Drained(Step(s, Dispatch))
  }

  lemma {:induction false} DrainedKeeps(s: Handler)
    requires Inv(s)
    ensures Inv(Drained(s)) && Drained(s).now == s.now
    ensures Drained(s).queue.Next? ==> Drained(s).queue.head.due > s.now
    decreases DueCount(s.queue, s.now)
  {
    if s.queue.Idle? || s.queue.head.due > s.now {
    } else {
      DispatchDueCount(s);
      DispatchKeeps(s);
      DrainedKeeps(Step(s, Dispatch));
    }
  }

  lemma FutureIsDismissal(q: Queue, now: int)
    requires Sorted(q) && Posted(q, now) && |Dues(q)| <= 1 && q.Next? && q.head.due > now
    ensures q == Next(q.head, Idle) && q.head.kind == KDismiss && Dues(q) == [q.head.due]
  {
  }

  /**
   Once the looper has caught up and no further event arrives, a shown dialog stays up for every later time before
   3000 ms after the last refresh, and is hidden from then on, with nothing left to do.
   */
  lemma HidesExactlyAtTimeout(s: Handler, millis: nat)
    requires Inv(s) && Drained(s).showing
    ensures var quiet := Drained(s);
            var later := Drained(Step(quiet, Tick(millis)));
            if quiet.now + millis < quiet.refreshed + DIALOG_TIMEOUT
            then later == quiet.(now := quiet.now + millis) && later.showing
            else !later.showing && !later.visible && later.queue == Idle
  {
    DrainedKeeps(s);
    var quiet := Drained(s);
    if quiet.queue.Next? { FutureIsDismissal(quiet.queue, quiet.now); }
    var ticked := Step(quiet, Tick(millis));
    StepKeeps(quiet, Tick(millis));
    if quiet.now + millis >= quiet.refreshed + DIALOG_TIMEOUT {
      assert ticked.queue == Next(ticked.queue.head, Idle) && ticked.queue.head.due <= ticked.now;
      var hidden := Step(ticked, Dispatch);
      assert hidden.queue == Idle && !hidden.showing;
      assert Drained(hidden) == hidden;
      DispatchDueCount(ticked);
    }
  }

  // ----- When a slider change is lost

  /**
   Among the due messages a dismissal comes before everything that would restart its timeout: an update, or a
   recreation while the configuration has changed.
   */
  predicate Hits(q: Queue, now: int, changed: bool) {
    && q.Next? && q.head.due <= now
    && (q.head.kind == KDismiss ||
        (q.head.kind != KUpdate && !(q.head.kind == KRecreate && changed) && Hits(q.rest, now, changed)))
  }

  predicate HasShow(q: Queue) {
    q.Next? && (q.head.kind == KShow || HasShow(q.rest))
  }

  /** The info of the last update in the queue. */
  function LastUpdate(q: Queue, info: Option<Info>): Option<Info> {
    match q
    case Idle => info
    case Next(m, rest) => LastUpdate(rest, if m.kind == KUpdate then m.info else info)
  }

  lemma {:induction false} FutureNeverHits(q: Queue, now: int, changed: bool)
    requires |Dues(q)| == 1 && Dues(q)[0] > now
    ensures !Hits(q, now, changed)
  {
    if q.head.kind == KDismiss {
    } else {
      FutureNeverHits(q.rest, now, changed);
    }
  }

  /** Posting an update or a show now does not come between a due dismissal and its effect. */
  lemma {:induction false} EnqueueHits(q: Queue, m: Message, now: int, changed: bool)
    requires Sorted(q) && m.due == now && (m.kind == KUpdate || m.kind == KShow)
    ensures Hits(Enqueue(q, m), now, changed) == Hits(q, now, changed)
    ensures HasShow(Enqueue(q, m)) == (HasShow(q) || m.kind == KShow)
  {
    if q.Idle? || m.due < q.head.due {
    } else {
      EnqueueHits(q.rest, m, now, changed);
    }
  }

  lemma {:induction false} EnqueueDismissal(q: Queue, m: Message, info: Option<Info>)
    requires m.kind == KDismiss
    ensures HasShow(Enqueue(q, m)) == HasShow(q)
    ensures LastUpdate(Enqueue(q, m), info) == LastUpdate(q, info)
  {
    if q.Idle? || m.due < q.head.due {
    } else {
      EnqueueDismissal(q.rest, m, if q.head.kind == KUpdate then q.head.info else info);
    }
  }

  lemma {:induction false} WithoutShows(q: Queue, k: Kind, info: Option<Info>)
    requires k != KUpdate
    ensures HasShow(Without(q, k)) == (HasShow(q) && k != KShow)
    ensures LastUpdate(Without(q, k), info) == LastUpdate(q, info)
  {
    if q.Idle? {
    } else {
      WithoutShows(q.rest, k, if q.head.kind == KUpdate then q.head.info else info);
    }
  }

  /** A pending show is due, and so is the head of the queue. */
  lemma {:induction false} ShowIsDue(q: Queue, now: int)
    requires Sorted(q) && Posted(q, now) && HasShow(q)
    ensures q.Next? && q.head.due <= now
  {
    if q.head.kind == KShow {
    } else {
      ShowIsDue(q.rest, now);
    }
  }

  lemma TimeoutResetShows(s: Handler, info: Option<Info>)
    ensures HasShow(TimeoutReset(s).queue) == HasShow(s.queue)
    ensures LastUpdate(TimeoutReset(s).queue, info) == LastUpdate(s.queue, info)
  {
    WithoutShows(s.queue, KDismiss, info);
    EnqueueDismissal(Without(s.queue, KDismiss), Message(KDismiss, None, s.now + DIALOG_TIMEOUT), info);
  }

  /** Showing or hiding takes every pending show with it, and keeps the updates. */
  lemma ShowingSetShows(s: Handler, value: bool, info: Option<Info>)
    ensures s.showing != value ==> !HasShow(ShowingSet(s, value).queue)
    ensures LastUpdate(ShowingSet(s, value).queue, info) == LastUpdate(s.queue, info)
  {
    WithoutShows(s.queue, KShow, info);
    WithoutShows(Without(s.queue, KShow), KDismiss, info);
    var quiet := s.(queue := Without(Without(Without(s.queue, KShow), KDismiss), KReset));
    WithoutShows(Without(Without(s.queue, KShow), KDismiss), KReset, info);
    TimeoutResetShows(quiet, info);
  }

  lemma RecreatedShows(s: Handler)
    ensures !s.showing ==> HasShow(Recreated(s).queue) == HasShow(s.queue)
    ensures LastUpdate(Recreated(s).queue, s.lastInfo) == LastUpdate(s.queue, s.lastInfo)
  {
    ShowingSetShows(s, false, s.lastInfo);
    ShowingSetShows(ShowingSet(s, false).(visible := false, face := s.lastInfo), true, s.lastInfo);
  }

  /** The dialog is shown and not about to be dismissed, or about to be shown. */
  predicate WillShow(s: Handler) {
    if s.showing then !Hits(s.queue, s.now, s.config != s.screen) else HasShow(s.queue)
  }

  /** The dispatch of a due message changes neither where the dialog nor where the recorded state will end up. */
  lemma DispatchForetold(s: Handler)
    requires Inv(s) && s.queue.Next? && s.queue.head.due <= s.now
    ensures WillShow(Step(s, Dispatch)) == WillShow(s)
    ensures var r := Step(s, Dispatch); LastUpdate(r.queue, r.lastInfo) == LastUpdate(s.queue, s.lastInfo)
  {
    var s', r := s.(queue := s.queue.rest), Step(s, Dispatch);
    DispatchKeeps(s);
    TimeoutResetShows(s', if s.queue.head.kind == KUpdate then s.queue.head.info else s.lastInfo);
    ShowingSetShows(s', true, s.lastInfo);
    ShowingSetShows(s', false, s.lastInfo);
    RecreatedShows(s');
    if r.refreshed == s.now && r.showing { FutureNeverHits(r.queue, r.now, r.config != r.screen); }
  }

  lemma {:induction false} DrainedForetold(s: Handler)
    requires Inv(s)
    ensures Drained(s).showing == WillShow(s)
    ensures Drained(s).lastInfo == LastUpdate(s.queue, s.lastInfo)
    decreases DueCount(s.queue, s.now)
  {
    if s.queue.Next? && s.queue.head.due <= s.now {
      DispatchDueCount(s);
      DispatchKeeps(s);
      DispatchForetold(s);
      DrainedForetold(Step(s, Dispatch));
    } else {
      if !s.showing && HasShow(s.queue) { ShowIsDue(s.queue, s.now); }
      if s.queue.Next? { FutureIsDismissal(s.queue, s.now); }
    }
  }

  /** An update posted now is behind every other update. */
  lemma {:induction false} PostedLast(q: Queue, m: Message, now: int, info: Option<Info>)
    requires Sorted(q) && Posted(q, now) && m.kind == KUpdate && m.due == now
    ensures LastUpdate(Enqueue(q, m), info) == m.info
  {
    if q.Next? && m.due >= q.head.due {
      PostedLast(q.rest, m, now, if q.head.kind == KUpdate then q.head.info else info);
    } else {
      NoFutureUpdate(q, now, m.info);
    }
  }

  lemma {:induction false} NoFutureUpdate(q: Queue, now: int, info: Option<Info>)
    requires Sorted(q) && Posted(q, now) && (q.Next? ==> q.head.due > now)
    ensures LastUpdate(q, info) == info
  {
    if q.Idle? {
    } else {
      NoFutureUpdate(q.rest, now, info);
    }
  }

  lemma {:induction false} EnqueueShow(q: Queue, m: Message, info: Option<Info>)
    requires m.kind == KShow
    ensures LastUpdate(Enqueue(q, m), info) == LastUpdate(q, info)
  {
    if q.Idle? || m.due < q.head.due {
    } else {
      EnqueueShow(q.rest, m, if q.head.kind == KUpdate then q.head.info else info);
    }
  }

  /**
   A slider change, in whatever state and with whatever else pending, is always recorded; and it ends with the dialog
   showing exactly unless the dialog was showing and a dismissal was already due, ahead of everything that would
   restart its timeout: then the dismissal removes the request to show.
   */
  lemma SliderChangeShownIff(s: Handler, position: int, mode: int)
    requires Inv(s) && mode != -1
    ensures var r := Drained(Step(s, SliderMoved(position, mode)));
            && r.lastInfo == Some(Info(position, mode)) && r.face == r.lastInfo
            && (r.showing <==> !(s.showing && Hits(s.queue, s.now, s.config != s.screen)))
  {
    var update := Message(KUpdate, Some(Info(position, mode)), s.now);
    var show := Message(KShow, None, s.now);
    var q := Enqueue(s.queue, update);
    var s1 := Step(s, SliderMoved(position, mode));
    EnqueueKeeps(s.queue, update, s.now);
    EnqueueHits(s.queue, update, s.now, s.config != s.screen);
    EnqueueHits(q, show, s.now, s.config != s.screen);
    PostedLast(s.queue, update, s.now, s.lastInfo);
    EnqueueShow(q, show, s.lastInfo);
    StepKeeps(s, SliderMoved(position, mode));
    DrainedForetold(s1);
    DrainedKeeps(s1);
  }

  /** The lost change, concretely: shown at 0, and the slider moves at 3000 before the dismissal is dispatched. */
  lemma LostChange()
    ensures var screen := Config(1, 0, 360, 0);
            var shown := Drained(Step(Created(0, screen, false), SliderMoved(0, 1)));
            var missed := Drained(Step(Step(shown, Tick(3000)), SliderMoved(2, 2)));
            shown.showing && !missed.showing && missed.lastInfo == Some(Info(2, 2))
  {
    var created := Created(0, Config(1, 0, 360, 0), false);
    SliderChangeShownIff(created, 0, 1);
    AlwaysInv(0, created.screen, false, Empty);
    StepKeeps(created, SliderMoved(0, 1));
    var moved := Step(created, SliderMoved(0, 1));
    DrainedKeeps(moved);
    var shown := Drained(moved);
    if shown.queue.Next? { FutureIsDismissal(shown.queue, 0); }
    StepKeeps(shown, Tick(3000));
    SliderChangeShownIff(Step(shown, Tick(3000)), 2, 2);
  }

  // ----- Recreation, and the doze broadcasts

  /**
   A recreation notes the four configuration values, keeps the dialog shown or hidden and in its last state, and starts
   a shown dialog's timeout anew; without a change, or a second time, it does nothing at all.
   */
  lemma RecreationNotes(s: Handler)
    requires Inv(s)
    ensures var r := Recreated(s);
            && r.config == s.screen && r.screen == s.screen
            && r.showing == s.showing && r.visible == s.showing && r.face == s.lastInfo && r.lastInfo == s.lastInfo
            && Recreated(r) == r
            && (s.config == s.screen ==> r == s)
            && (s.config != s.screen && s.showing ==>
                  r.refreshed == s.now && Dues(r.queue) == [s.now + 3000] && !HasShow(r.queue))
  {
    RecreatedKeeps(s);
    ShowingSetShows(s, false, s.lastInfo);
    ShowingSetShows(ShowingSet(s, false).(visible := false, face := s.lastInfo), true, s.lastInfo);
    if s.config != s.screen && s.showing { assert Inv(Recreated(s)) && Recreated(s).refreshed == s.now; }
  }

  /** Every update, and every time the dialog comes up, sends one doze broadcast if those are enabled; nothing else. */
  lemma DispatchPulses(s: Handler)
    requires s.queue.Next? && s.queue.head.due <= s.now
    ensures var r, m := Step(s, Dispatch), s.queue.head;
            var causes := (m.kind == KUpdate && m.info.Some?) || (m.kind == KShow && !s.showing) ||
                          (m.kind == KRecreate && s.config != s.screen && s.showing);
            r.pulses == s.pulses + if causes && s.pulseEnabled then 1 else 0
  {
  }

  predicate HasRecreate(q: Queue) {
    q.Next? && (q.head.kind == KRecreate || HasRecreate(q.rest))
  }

  lemma {:induction false} EnqueueRecreate(q: Queue, m: Message)
    ensures HasRecreate(Enqueue(q, m)) <==> m.kind == KRecreate || HasRecreate(q)
  {
    if q.Idle? || m.due < q.head.due {
    } else {
      EnqueueRecreate(q.rest, m);
    }
  }

  lemma {:induction false} WithoutRecreate(q: Queue, k: Kind)
    requires k != KRecreate
    ensures HasRecreate(Without(q, k)) <==> HasRecreate(q)
  {
    if q.Idle? {
    } else {
      WithoutRecreate(q.rest, k);
    }
  }

  /** The handler has the screen's configuration, or is about to look at it. */
  predicate Noted(s: Handler) {
    s.config == s.screen || HasRecreate(s.queue)
  }

  lemma ShowingSetNotes(s: Handler, value: bool)
    ensures var r := ShowingSet(s, value);
            r.config == s.config && r.screen == s.screen && (HasRecreate(r.queue) <==> HasRecreate(s.queue))
    ensures HasRecreate(TimeoutReset(s).queue) <==> HasRecreate(s.queue)
  {
    var q1 := Without(s.queue, KShow);
    var q2 := Without(q1, KDismiss);
    var q3 := Without(q2, KReset);
    var dismissal := Message(KDismiss, None, s.now + DIALOG_TIMEOUT);
    WithoutRecreate(s.queue, KShow);
    WithoutRecreate(q1, KDismiss);
    WithoutRecreate(q2, KReset);
    WithoutRecreate(q3, KDismiss);
    EnqueueRecreate(Without(q3, KDismiss), dismissal);
    WithoutRecreate(s.queue, KDismiss);
    EnqueueRecreate(Without(s.queue, KDismiss), dismissal);
  }

  lemma StepNotes(s: Handler, e: Event)
    requires Inv(s) && Noted(s)
    ensures Noted(Step(s, e))
  {
    match e {
      case Tick(_) =>
      case SliderMoved(position, mode) =>
        var m := Message(KUpdate, Some(Info(position, mode)), s.now);
        EnqueueRecreate(s.queue, m);
        EnqueueRecreate(Enqueue(s.queue, m), Message(KShow, None, s.now));
      case ScreenChanged(_) => EnqueueRecreate(s.queue, Message(KRecreate, None, s.now));
      case Dispatch =>
        if s.queue.Next? && s.queue.head.due <= s.now {
          var s' := s.(queue := s.queue.rest);
          ShowingSetNotes(s', true);
          ShowingSetNotes(s', false);
        }
    }
  }

  lemma {:induction false} AlwaysNoted(now: int, screen: Config, pulseEnabled: bool, events: Trace<Event>)
    ensures Noted(Run(Created(now, screen, pulseEnabled), events))
  {
    if events.Empty? {
    } else {
      var before := Run(Created(now, screen, pulseEnabled), events.before);
      AlwaysInv(now, screen, pulseEnabled, events.before);
      AlwaysNoted(now, screen, pulseEnabled, events.before);
      StepNotes(before, events.last);
    }
  }

  /** The configuration of the last screen change in a history, or else the one the handler was created with. */
  function LastScreen(screen: Config, events: Trace<Event>): Config {
    match events
    case Empty => screen
    case Then(_, ScreenChanged(config)) => config
    case Then(before, _) => LastScreen(screen, before)
  }

  lemma {:induction false} ScreenIsLast(now: int, screen: Config, pulseEnabled: bool, events: Trace<Event>)
    ensures Run(Created(now, screen, pulseEnabled), events).screen == LastScreen(screen, events)
  {
    if events.Empty? {
    } else {
      ScreenIsLast(now, screen, pulseEnabled, events.before);
      StepScreen(Run(Created(now, screen, pulseEnabled), events.before), events.last);
    }
  }

  lemma StepScreen(s: Handler, e: Event)
    ensures Step(s, e).screen == if e.ScreenChanged? then e.screen else s.screen
  {
  }

  lemma {:induction false} DrainedNotes(s: Handler)
    requires Inv(s) && Noted(s)
    ensures Drained(s).config == s.screen
    decreases DueCount(s.queue, s.now)
  {
    if s.queue.Next? && s.queue.head.due <= s.now {
      DispatchDueCount(s);
      DispatchKeeps(s);
      StepNotes(s, Dispatch);
      StepScreen(s, Dispatch);
      DrainedNotes(Step(s, Dispatch));
    } else if s.queue.Next? {
      FutureIsDismissal(s.queue, s.now);
      assert !HasRecreate(s.queue.rest);
    }
  }

  /** After any history, once the looper has caught up the dialog is built for the configuration last broadcast. */
  lemma FollowsTheScreen(now: int, screen: Config, pulseEnabled: bool, events: Trace<Event>)
    ensures Drained(Run(Created(now, screen, pulseEnabled), events)).config == LastScreen(screen, events)
  {
    AlwaysInv(now, screen, pulseEnabled, events);
    AlwaysNoted(now, screen, pulseEnabled, events);
    ScreenIsLast(now, screen, pulseEnabled, events);
    DrainedNotes(Run(Created(now, screen, pulseEnabled), events));
  }

  /** An update shows its state and starts the timeout anew, 3000 ms from now. */
  lemma UpdateNotes(s: Handler, info: Info)
    requires Inv(s)
    ensures var r := Updated(s, info);
            && r.lastInfo == Some(info) && r.face == Some(info) && r.showing == s.showing
            && r.refreshed == s.now && Dues(r.queue) == [s.now + 3000]
  {
    TimeoutResetKeeps(s);
  }
}
