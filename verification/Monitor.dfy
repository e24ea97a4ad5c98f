/** src/monitor.rs: the scheduling and availability state machine. */
module Monitor {
  import opened Durations
  import opened Guarantees
  import opened History
  import opened Links
  import opened Numbers
  import opened Wrappers

  // ---------- what the acquisition interface can answer ----------

  datatype EventBatch = EventBatch(first: Option<nat>, last: Option<nat>)

  datatype Acquisition =
    | Completed(tag: nat, links: seq<ObservedLink>, events: EventBatch)
    | Ordinary(events: EventBatch)
    | LostNotifications(events: EventBatch)

  datatype WaitOutcome = Deadline | LinkChanged(at: nat) | WaitFailed

  /** Everything the environment may answer during one iteration of the loop, clock readings included. */
  datatype Turn = Turn(
    now: nat,
    subscribes: bool,
    subscribeFailedAt: nat,
    ready: nat,
    acquisition: Acquisition,
    settledAt: nat,
    failedAt: nat,
    wait: WaitOutcome,
    lostAt: nat)

  /** A batch the schedule can take: empty, or in order and shorter than the quiet period. */
  predicate Recordable(b: EventBatch) {
    || (b.first.None? && b.last.None?)
    || (b.first.Some? && b.last.Some? && b.first.value <= b.last.value && b.last.value - b.first.value < EVENT_RESET)
  }

  // ---------- the operations on values ----------

  /** The fields of State, and the history they result from. */
  datatype Schedule = Schedule(
    reconcile: nat,
    continuity: nat,
    subscribed: bool,
    needsInventory: bool,
    retryNotBefore: Option<nat>,
    failureDelay: nat,
    eventDeadline: Option<nat>,
    eventDelay: nat,
    lastEvent: Option<nat>,
    lastSuccess: Option<nat>,
    log: Log)
  {
    predicate RetryReady(now: nat) {
      retryNotBefore.None? || now >= retryNotBefore.value
    }

    predicate AcquisitionReady(now: nat) {
      && RetryReady(now)
      && (|| needsInventory
          || (eventDeadline.Some? && now >= eventDeadline.value)
          || (lastSuccess.Some? && now >= SaturatingAdd(lastSuccess.value, reconcile)))
    }

    function NextDeadline(now: nat): nat {
      if retryNotBefore.Some? then Max(retryNotBefore.value, now)
      else if !subscribed || needsInventory then now
      else
        var event := if eventDeadline.Some? then eventDeadline.value else MAX_DURATION;
        var due := if lastSuccess.Some? then SaturatingAdd(lastSuccess.value, reconcile) else now;
        Max(Min(event, due), now)
    }

    function Subscribe(at: nat): Schedule {
      this.(subscribed := true, needsInventory := true, log := log + [Subscribed(at)])
    }

    function Start(at: nat): Schedule {
      this.(needsInventory := false,
      eventDelay := if eventDeadline.Some? then NextDelay(eventDelay) else eventDelay,
      eventDeadline := None,
      log := log + [Started(at)])
    }

    function RecordEvent(at: nat): Schedule {
      var quiet := lastEvent.None? || SaturatingSub(at, lastEvent.value) >= EVENT_RESET;
      var delay := if quiet then INITIAL_DELAY else eventDelay;
      this.(eventDelay := delay,
      lastEvent := Some(at),
      eventDeadline := if eventDeadline.None? then Some(SaturatingAdd(at, delay)) else eventDeadline,
      log := log + [Recorded(at)])
    }

    /** The event times of a rejected batch reach the history only. */
    function Ignore(b: EventBatch): Schedule {
      var first := if b.first.Some? then [Ignored(b.first.value)] else [];
      var last := if b.last.Some? then [Ignored(b.last.value)] else [];
      this.(log := log + first + last)
    }

    function RecordBatch(b: EventBatch): Schedule {
      if !Recordable(b) then Ignore(b)
      else if b.first.None? then this
      else if b.first == b.last then RecordEvent(b.first.value)
      else RecordEvent(b.first.value).RecordEvent(b.last.value)
    }

    function Accept(tag: nat, links: seq<ObservedLink>, at: nat): Schedule {
      this.(retryNotBefore := None,
      failureDelay := INITIAL_DELAY,
      lastSuccess := Some(at),
      log := log + [Accepted(tag, links, at)])
    }

    function Fail(at: nat): Schedule {
      this.(needsInventory := true,
      retryNotBefore := Some(SaturatingAdd(at, failureDelay)),
      failureDelay := NextDelay(failureDelay),
      log := log + [Failed(at)])
    }

    function LoseContinuity(at: nat): Schedule {
      this.(continuity := (continuity + 1) % GENERATIONS,
      subscribed := false,
      needsInventory := true,
      retryNotBefore := Some(SaturatingAdd(at, failureDelay)),
      failureDelay := NextDelay(failureDelay),
      log := log + [Lost(at)])
    }

    /** Whether accept_inventory lets the completion publish. */
    predicate Accepts(a: Acquisition) {
      a.Completed? && a.tag == continuity && Recordable(a.events) && WellFormed(a.links)
    }

    function AcceptInventory(a: Acquisition, at: nat): Schedule
      requires a.Completed?
    {
      if a.tag != continuity then Ignore(a.events)
      else if !Recordable(a.events) then Ignore(a.events)
      else if !WellFormed(a.links) then RecordBatch(a.events)
      else RecordBatch(a.events).Accept(a.tag, a.links, at)
    }

    /** The attempt's outcome reaches the schedule. */
    function Conclude(t: Turn): Schedule {
      match t.acquisition
      case Completed(_, _, _) =>
        var settled := AcceptInventory(t.acquisition, t.settledAt);
        if Accepts(t.acquisition) then settled else settled.Fail(t.failedAt)
      case Ordinary(events) => RecordBatch(events).Fail(t.failedAt)
      case LostNotifications(events) => RecordBatch(events).LoseContinuity(t.failedAt)
    }

    function Attempt(t: Turn): Schedule {
      Start(t.ready).Conclude(t)
    }

    function Await(t: Turn): Schedule {
      match t.wait
      case Deadline => this
      case LinkChanged(at) => RecordEvent(at)
      case WaitFailed => LoseContinuity(t.lostAt)
    }

    function TrySubscribe(t: Turn): Schedule {
      if subscribed || !RetryReady(t.now) then this
      else if t.subscribes then Subscribe(t.now)
      else Fail(t.subscribeFailedAt)
    }

    predicate Attempts(t: Turn) {
      var s := TrySubscribe(t);
      s.subscribed && s.AcquisitionReady(t.ready)
    }

    /** One iteration of the loop in run. */
    function Take(t: Turn): Schedule {
      if Attempts(t) then TrySubscribe(t).Attempt(t) else TrySubscribe(t).Await(t)
    }
  }

  /** State::new. */
  function Initial(reconcile: nat): Schedule {
    Schedule(reconcile, 0, false, true, None, INITIAL_DELAY, None, INITIAL_DELAY, None, None, [])
  }

  function After(reconcile: nat, turns: seq<Turn>): Schedule {
    if turns == [] then Initial(reconcile)
    else After(reconcile, turns[..|turns| - 1]).Take(turns[|turns| - 1])
  }

  // ---------- what an iteration does, field by field ----------

  /** Twice the delay, at most thirty seconds. */
  lemma DelayDoubles(delay: nat)
    ensures NextDelay(delay) == if 2 * delay <= 30 * SECOND then 2 * delay else 30 * SECOND
  {
  }

  /** The subscription step: not due, successful, or a failure like any other. */
  lemma SubscriptionRules(s: Schedule, t: Turn)
    ensures var u := s.TrySubscribe(t);
            var due := !s.subscribed && (s.retryNotBefore.None? || s.retryNotBefore.value <= t.now);
            && (!due ==> u == s)
            && (due && t.subscribes ==>
                  u == s.(subscribed := true, needsInventory := true, log := s.log + [Subscribed(t.now)]))
            && (due && !t.subscribes ==>
                  && u.log == s.log + [Failed(t.subscribeFailedAt)]
                  && !u.subscribed && u.needsInventory
                  && u.retryNotBefore == Some(SaturatingAdd(t.subscribeFailedAt, s.failureDelay))
                  && u.failureDelay == (if 2 * s.failureDelay <= 30 * SECOND then 2 * s.failureDelay else 30 * SECOND)
                  && (u.continuity, u.eventDeadline, u.eventDelay) == (s.continuity, s.eventDeadline, s.eventDelay)
                  && (u.lastEvent, u.lastSuccess) == (s.lastEvent, s.lastSuccess))
  {
  }

  /** An iteration attempts when subscribed, past the floor, and owed one, woken by events or due to reconcile. */
  lemma AttemptRules(s: Schedule, t: Turn)
    ensures var u := s.TrySubscribe(t);
            s.Attempts(t) <==>
              && u.subscribed
              && (u.retryNotBefore.Some? ==> u.retryNotBefore.value <= t.ready)
              && (|| u.needsInventory
                  || (u.eventDeadline.Some? && u.eventDeadline.value <= t.ready)
                  || (u.lastSuccess.Some? && SaturatingAdd(u.lastSuccess.value, u.reconcile) <= t.ready))
  {
  }

  /** One event: the backoff resets after sixty quiet seconds, and only the first event sets the deadline. */
  lemma EventRules(s: Schedule, at: nat)
    ensures var u := s.RecordEvent(at);
            var quiet := s.lastEvent.None? || at >= s.lastEvent.value + 60 * SECOND;
            && u.log == s.log + [Recorded(at)] && u.lastEvent == Some(at)
            && u.eventDelay == (if quiet then 1 * SECOND else s.eventDelay)
            && u.eventDeadline == (if s.eventDeadline.Some? then s.eventDeadline
                                   else Some(SaturatingAdd(at, if quiet then 1 * SECOND else s.eventDelay)))
            && u == s.(log := u.log, lastEvent := u.lastEvent, eventDelay := u.eventDelay,
                       eventDeadline := u.eventDeadline)
  {
  }

  /** A batch leaves its first and last event: recorded if it is in order and short, else only set aside. */
  lemma BatchRules(s: Schedule, b: EventBatch)
    ensures var usable := b.first.Some? && b.last.Some? && b.first.value <= b.last.value < b.first.value + 60 * SECOND;
            && (b.first.None? && b.last.None? ==> s.RecordBatch(b) == s)
            && (usable && b.first == b.last ==> s.RecordBatch(b) == s.RecordEvent(b.first.value))
            && (usable && b.first != b.last ==>
                  s.RecordBatch(b) == s.RecordEvent(b.first.value).RecordEvent(b.last.value))
            && (!usable && (b.first.Some? || b.last.Some?) ==> SetsAside(s, b, s.RecordBatch(b)))
  {
  }

  /** Nothing but the history changes, and there the events are marked as ignored. */
  predicate SetsAside(s: Schedule, b: EventBatch, u: Schedule) {
    && u == s.(log := u.log)
    && u.log == s.log + (if b.first.Some? then [Ignored(b.first.value)] else []) +
                (if b.last.Some? then [Ignored(b.last.value)] else [])
  }

  /** A wait changes nothing, records its event, or loses continuity and counts as a failure. */
  lemma WaitRules(s: Schedule, t: Turn)
    ensures t.wait == Deadline ==> s.Await(t) == s
    ensures t.wait.LinkChanged? ==> s.Await(t) == s.RecordEvent(t.wait.at)
    ensures t.wait == WaitFailed ==> LosesAt(s, t.lostAt, s.Await(t))
  {
  }

  /** A failure at `at`: an inventory is needed, not before the delay has passed, and the next delay is longer. */
  predicate FailsAt(s: Schedule, at: nat, u: Schedule) {
    && u.log == s.log + [Failed(at)]
    && u == s.(log := u.log, needsInventory := true, retryNotBefore := Some(SaturatingAdd(at, s.failureDelay)),
               failureDelay := if 2 * s.failureDelay <= 30 * SECOND then 2 * s.failureDelay else 30 * SECOND)
  }

  /** A loss at `at` is a failure that also ends the subscription and the generation, a wrapping 64-bit counter. */
  predicate LosesAt(s: Schedule, at: nat, u: Schedule) {
    && u.log == s.log + [Lost(at)]
    && u == s.(log := u.log, subscribed := false, needsInventory := true,
               continuity := (s.continuity + 1) % 0x1_0000_0000_0000_0000,
               retryNotBefore := Some(SaturatingAdd(at, s.failureDelay)),
               failureDelay := if 2 * s.failureDelay <= 30 * SECOND then 2 * s.failureDelay else 30 * SECOND)
  }

  /** An attempt clears what it was owed, and an event deadline it consumes doubles the event delay. */
  lemma StartRules(s: Schedule, at: nat)
    ensures var u := s.Start(at);
            && u.log == s.log + [Started(at)] && !u.needsInventory && u.eventDeadline == None
            && u.eventDelay == (if s.eventDeadline.None? then s.eventDelay
                                else if 2 * s.eventDelay <= 30 * SECOND then 2 * s.eventDelay else 30 * SECOND)
            && u == s.(log := u.log, needsInventory := false, eventDeadline := None, eventDelay := u.eventDelay)
  {
  }

  /**
   * How an attempt ends. A stale completion fails with its events set aside; an unusable batch or a malformed
   * inventory fails; anything else that completes is accepted and clears the failures. An ordinary failure fails and
   * a loss loses, both after their events are recorded.
   */
  lemma OutcomeRules(s: Schedule, t: Turn)
    ensures var a, u, recorded := t.acquisition, s.Conclude(t), s.RecordBatch(t.acquisition.events);
            && (a.Completed? && a.tag != s.continuity ==>
                  exists aside :: SetsAside(s, a.events, aside) && FailsAt(aside, t.failedAt, u))
            && (a.Completed? && a.tag == s.continuity && !(Recordable(a.events) && WellFormed(a.links)) ==>
                  FailsAt(recorded, t.failedAt, u))
            && (a.Completed? && a.tag == s.continuity && Recordable(a.events) && WellFormed(a.links) ==>
                  && u.log == recorded.log + [Accepted(a.tag, a.links, t.settledAt)]
                  && u == recorded.(log := u.log, retryNotBefore := None, failureDelay := 1 * SECOND,
                                    lastSuccess := Some(t.settledAt)))
            && (a.Ordinary? ==> FailsAt(recorded, t.failedAt, u))
            && (a.LostNotifications? ==> LosesAt(recorded, t.failedAt, u))
  {
    if t.acquisition.Completed? && t.acquisition.tag != s.continuity {
      assert SetsAside(s, t.acquisition.events, s.Ignore(t.acquisition.events));
    }
    assert s.RecordBatch(t.acquisition.events).continuity == s.continuity;
  }

  // ---------- every variable is a reading of a legal history ----------

  predicate Ledger(s: Schedule) {
    && s.continuity == Losses(s.log) % GENERATIONS
    && s.subscribed == Listening(s.log)
    && s.needsInventory == InventoryNeeded(s.log)
    && s.retryNotBefore == Floor(s.log)
    && s.failureDelay == Backoff(FailuresSinceAccept(s.log))
    && s.eventDeadline == EventDeadline(s.log)
    && s.eventDelay == Backoff(EventAttempts(s.log))
    && s.lastEvent == LatestEvent(s.log)
    && s.lastSuccess == LatestSuccess(s.log)
  }

  predicate Sound(s: Schedule) {
    Ledger(s) && Legal(s.reconcile, s.log)
  }

  /** Appending one entry unfolds every reading once. */
  lemma Appended(log: Log, e: Entry)
    ensures log + [e] != [] && Front(log + [e]) == log && Last(log + [e]) == e
  {
  }

  lemma SubscribeKeeps(s: Schedule, at: nat)
    requires Sound(s) && !InFlight(s.log) && !s.subscribed && s.RetryReady(at)
    ensures Sound(s.Subscribe(at)) && !InFlight(s.Subscribe(at).log)
  {
    Appended(s.log, Subscribed(at));
  }

  lemma StartKeeps(s: Schedule, at: nat)
    requires Sound(s) && !InFlight(s.log) && s.subscribed && s.AcquisitionReady(at)
    ensures Sound(s.Start(at)) && InFlight(s.Start(at).log) && Untainted(s.Start(at).log)
  {
    Appended(s.log, Started(at));
    PendingHasDeadline(s.log);
    BackoffDoubles(EventAttempts(s.log));
  }

  lemma RecordKeeps(s: Schedule, at: nat)
    requires Sound(s)
    ensures Sound(s.RecordEvent(at))
    ensures InFlight(s.RecordEvent(at).log) == InFlight(s.log) && Untainted(s.RecordEvent(at).log) == Untainted(s.log)
  {
    Appended(s.log, Recorded(at));
    PendingHasDeadline(s.log);
    BackoffDoubles(0);
  }

  lemma IgnoreOneKeeps(s: Schedule, at: nat)
    requires Sound(s) && InFlight(s.log)
    ensures Sound(s.(log := s.log + [Ignored(at)])) && InFlight(s.log + [Ignored(at)])
  {
    Appended(s.log, Ignored(at));
  }

  lemma IgnoreKeeps(s: Schedule, b: EventBatch)
    requires Sound(s) && InFlight(s.log)
    ensures Sound(s.Ignore(b)) && InFlight(s.Ignore(b).log)
  {
    var first := if b.first.Some? then [Ignored(b.first.value)] else [];
    var middle := s.(log := s.log + first);
    if b.first.Some? {
      IgnoreOneKeeps(s, b.first.value);
    } else {
      assert s.log + first == s.log;
    }
    if b.last.Some? {
      IgnoreOneKeeps(middle, b.last.value);
    } else {
      assert middle.log + [] == middle.log;
    }
  }

  lemma RecordBatchKeeps(s: Schedule, b: EventBatch)
    requires Sound(s) && InFlight(s.log)
    ensures Sound(s.RecordBatch(b)) && InFlight(s.RecordBatch(b).log)
    ensures Recordable(b) ==> Untainted(s.RecordBatch(b).log) == Untainted(s.log)
  {
    if !Recordable(b) {
      IgnoreKeeps(s, b);
    } else if b.first.Some? {
      RecordKeeps(s, b.first.value);
      RecordKeeps(s.RecordEvent(b.first.value), b.last.value);
    }
  }

  lemma AcceptKeeps(s: Schedule, tag: nat, links: seq<ObservedLink>, at: nat)
    requires Sound(s) && InFlight(s.log) && Untainted(s.log) && WellFormed(links) && tag == s.continuity
    ensures Sound(s.Accept(tag, links, at)) && !InFlight(s.Accept(tag, links, at).log)
  {
    Appended(s.log, Accepted(tag, links, at));
    BackoffDoubles(0);
  }

  lemma AcceptInventoryKeeps(s: Schedule, a: Acquisition, at: nat)
    requires Sound(s) && InFlight(s.log) && Untainted(s.log) && a.Completed?
    ensures Sound(s.AcceptInventory(a, at))
    ensures InFlight(s.AcceptInventory(a, at).log) <==> !s.Accepts(a)
  {
    RecordBatchKeeps(s, a.events);
    IgnoreKeeps(s, a.events);
    if s.Accepts(a) {
      AcceptKeeps(s.RecordBatch(a.events), a.tag, a.links, at);
    }
  }

  lemma FailKeeps(s: Schedule, at: nat)
    requires Sound(s)
    ensures Sound(s.Fail(at)) && !InFlight(s.Fail(at).log)
  {
    Appended(s.log, Failed(at));
    BackoffDoubles(FailuresSinceAccept(s.log));
  }

  lemma LoseKeeps(s: Schedule, at: nat)
    requires Sound(s)
    ensures Sound(s.LoseContinuity(at)) && !InFlight(s.LoseContinuity(at).log)
  {
    Appended(s.log, Lost(at));
    BackoffDoubles(FailuresSinceAccept(s.log));
  }

  lemma AttemptKeeps(s: Schedule, t: Turn)
    requires Sound(s) && !InFlight(s.log) && s.subscribed && s.AcquisitionReady(t.ready)
    ensures Sound(s.Attempt(t)) && !InFlight(s.Attempt(t).log)
  {
    var begun := s.Start(t.ready);
    StartKeeps(s, t.ready);
    match t.acquisition {
      case Completed(_, _, _) =>
        AcceptInventoryKeeps(begun, t.acquisition, t.settledAt);
        FailKeeps(begun.AcceptInventory(t.acquisition, t.settledAt), t.failedAt);
      case Ordinary(events) =>
        RecordBatchKeeps(begun, events);
        FailKeeps(begun.RecordBatch(events), t.failedAt);
      case LostNotifications(events) =>
        RecordBatchKeeps(begun, events);
        LoseKeeps(begun.RecordBatch(events), t.failedAt);
    }
  }

  lemma TrySubscribeKeeps(s: Schedule, t: Turn)
    requires Sound(s) && !InFlight(s.log)
    ensures Sound(s.TrySubscribe(t)) && !InFlight(s.TrySubscribe(t).log)
  {
    if !s.subscribed && s.RetryReady(t.now) {
      SubscribeKeeps(s, t.now);
      FailKeeps(s, t.subscribeFailedAt);
    }
  }

  lemma AwaitKeeps(s: Schedule, t: Turn)
    requires Sound(s) && !InFlight(s.log)
    ensures Sound(s.Await(t)) && !InFlight(s.Await(t).log)
  {
    if t.wait.LinkChanged? {
      RecordKeeps(s, t.wait.at);
    }
    LoseKeeps(s, t.lostAt);
  }

  lemma TakeKeeps(s: Schedule, t: Turn)
    requires Sound(s) && !InFlight(s.log)
    ensures Sound(s.Take(t)) && !InFlight(s.Take(t).log)
  {
    TrySubscribeKeeps(s, t);
    if s.Attempts(t) {
      AttemptKeeps(s.TrySubscribe(t), t);
    } else {
      AwaitKeeps(s.TrySubscribe(t), t);
    }
  }

  lemma TakeKeepsReconcile(s: Schedule, t: Turn)
    ensures s.Take(t).reconcile == s.reconcile
  {
    var begun := s.TrySubscribe(t).Start(t.ready);
    assert begun.RecordBatch(t.acquisition.events).reconcile == s.reconcile;
  }

  lemma InitialSound(reconcile: nat)
    ensures Sound(Initial(reconcile)) && !InFlight(Initial(reconcile).log)
  {
    BackoffDoubles(0);
  }

  /** Every run writes a legal history and its variables are exactly the readings of it. */
  lemma {:induction false} RunsAreLegal(reconcile: nat, turns: seq<Turn>)
    ensures Sound(After(reconcile, turns)) && !InFlight(After(reconcile, turns).log)
    ensures After(reconcile, turns).reconcile == reconcile
  {
    if turns == [] {
      InitialSound(reconcile);
    } else {
      RunsAreLegal(reconcile, turns[..|turns| - 1]);
      TakeKeeps(After(reconcile, turns[..|turns| - 1]), turns[|turns| - 1]);
      TakeKeepsReconcile(After(reconcile, turns[..|turns| - 1]), turns[|turns| - 1]);
    }
  }

  // ---------- exact sleeping ----------

  /** A subscription or an attempt could begin at `t` without further input. */
  predicate Enabled(s: Schedule, t: nat) {
    s.RetryReady(t) && (!s.subscribed || s.AcquisitionReady(t))
  }

  /** What is enabled is what an iteration that takes no time and can subscribe would attempt. */
  lemma EnabledIsAttempt(s: Schedule, t: Turn)
    requires t.now == t.ready && t.subscribes
    ensures Enabled(s, t.now) <==> s.Attempts(t)
  {
  }

  /** next_deadline is the first moment from now on at which anything can begin. */
  lemma ExactSleep(s: Schedule, now: nat)
    requires Sound(s) && !InFlight(s.log)
    ensures s.NextDeadline(now) >= now && Enabled(s, s.NextDeadline(now))
    ensures forall t :: now <= t < s.NextDeadline(now) ==> !Enabled(s, t)
  {
    HeadShape(s.reconcile, s.log);
  }

  /**
   * Waiting never spins. A subscribed wait takes time. An instant unsubscribed wait leads to a subscription at the
   * next loop head, unless the wait itself fails: then the subscription is held back by the new failure delay. After
   * a failed subscription the wait takes time until its delay has passed.
   */
  lemma NoSpinning(s: Schedule, t: Turn, next: Turn)
    requires Sound(s) && !InFlight(s.log) && !s.Attempts(t)
    requires next.now >= t.ready && next.subscribes
    ensures var u := s.TrySubscribe(t);
            && (u.subscribed ==> u.NextDeadline(t.ready) > t.ready)
            && (u.NextDeadline(t.ready) == t.ready ==>
                  (s.Take(t).TrySubscribe(next).subscribed <==>
                     !t.wait.WaitFailed? || next.now >= SaturatingAdd(t.lostAt, u.failureDelay)))
    ensures var u := s.TrySubscribe(t);
            var failed := !s.subscribed && s.RetryReady(t.now) && !t.subscribes;
            failed && t.ready < SaturatingAdd(t.subscribeFailedAt, s.failureDelay) ==> u.NextDeadline(t.ready) > t.ready
  {
    TrySubscribeKeeps(s, t);
    ExactSleep(s.TrySubscribe(t), t.ready);
  }

  // ---------- what becomes available ----------

  lemma AvailableAppend(log: Log, e: Entry)
    ensures Available(log + [e]) == match e
                                    case Accepted(_, links, _) => Some(links)
                                    case Lost(_) => None
                                    case _ => Available(log)
    ensures Losses(log + [e]) == Losses(log) + if e.Lost? then 1 else 0
    ensures StepsOf(log + [e]) == StepsOf(log) + WritesOf(e)
    ensures WritesOf(e) == [] ==> StepsOf(log + [e]) == StepsOf(log)
  {
    Appended(log, e);
  }

  /** Two histories agree on what is available, on how often continuity was lost and on what was published. */
  ghost predicate SameAvailability(a: Log, b: Log) {
    Available(a) == Available(b) && Losses(a) == Losses(b) && StepsOf(a) == StepsOf(b)
  }

  lemma IgnoreKeepsAvailability(s: Schedule, b: EventBatch)
    ensures SameAvailability(s.Ignore(b).log, s.log)
  {
    var first := if b.first.Some? then [Ignored(b.first.value)] else [];
    assert s.log + [] == s.log && s.log + first + [] == s.log + first;
    if b.first.Some? {
      AvailableAppend(s.log, Ignored(b.first.value));
    }
    if b.last.Some? {
      AvailableAppend(s.log + first, Ignored(b.last.value));
    }
  }

  lemma RecordKeepsAvailability(s: Schedule, b: EventBatch)
    ensures SameAvailability(s.RecordBatch(b).log, s.log)
  {
    IgnoreKeepsAvailability(s, b);
    if Recordable(b) && b.first.Some? {
      AvailableAppend(s.log, Recorded(b.first.value));
      AvailableAppend(s.RecordEvent(b.first.value).log, Recorded(b.last.value));
    }
  }

  /** The iteration's attempt is accepted. */
  predicate Publishes(s: Schedule, t: Turn) {
    s.Attempts(t) && s.TrySubscribe(t).Start(t.ready).Accepts(t.acquisition)
  }

  /** The iteration loses continuity, in its attempt or in its wait. */
  predicate Withdraws(s: Schedule, t: Turn) {
    if s.Attempts(t) then t.acquisition.LostNotifications? else t.wait.WaitFailed?
  }

  lemma TrySubscribeAvailability(s: Schedule, t: Turn)
    ensures SameAvailability(s.TrySubscribe(t).log, s.log)
  {
    AvailableAppend(s.log, Subscribed(t.now));
    AvailableAppend(s.log, Failed(t.subscribeFailedAt));
  }

  lemma ConcludeAvailability(s: Schedule, t: Turn)
    ensures var log := s.Conclude(t).log;
            if s.Accepts(t.acquisition) then Available(log) == Some(t.acquisition.links) && Losses(log) == Losses(s.log)
            else if t.acquisition.LostNotifications? then Available(log).None? && Losses(log) == Losses(s.log) + 1
            else SameAvailability(log, s.log)
  {
    var events := t.acquisition.events;
    RecordKeepsAvailability(s, events);
    var recorded := s.RecordBatch(events);
    match t.acquisition {
      case Completed(tag, links, _) =>
        AvailableAppend(recorded.log, Accepted(tag, links, t.settledAt));
        AvailableAppend(s.AcceptInventory(t.acquisition, t.settledAt).log, Failed(t.failedAt));
        IgnoreKeepsAvailability(s, events);
      case Ordinary(_) =>
        AvailableAppend(recorded.log, Failed(t.failedAt));
      case LostNotifications(_) =>
        AvailableAppend(recorded.log, Lost(t.failedAt));
    }
  }

  lemma AwaitAvailability(s: Schedule, t: Turn)
    ensures var log := s.Await(t).log;
            if t.wait.WaitFailed? then Available(log).None? && Losses(log) == Losses(s.log) + 1
            else SameAvailability(log, s.log)
  {
    AvailableAppend(s.log, Lost(t.lostAt));
    if t.wait.LinkChanged? {
      AvailableAppend(s.log, Recorded(t.wait.at));
    }
  }

  /** Availability changes only by an accepted inventory, which brings its links, and by a loss, which withdraws. */
  lemma TakeAvailability(s: Schedule, t: Turn)
    ensures var log := s.Take(t).log;
            if Publishes(s, t) then Available(log) == Some(t.acquisition.links) && Losses(log) == Losses(s.log)
            else if Withdraws(s, t) then Available(log).None? && Losses(log) == Losses(s.log) + 1
            else SameAvailability(log, s.log)
  {
    TrySubscribeAvailability(s, t);
    AvailableAppend(s.TrySubscribe(t).log, Started(t.ready));
    ConcludeAvailability(s.TrySubscribe(t).Start(t.ready), t);
    AwaitAvailability(s.TrySubscribe(t), t);
  }

  // ---------- event batches lose nothing ----------

  function RecordAll(s: Schedule, times: seq<nat>): Schedule {
    if times == [] then s else RecordAll(s, times[..|times| - 1]).RecordEvent(times[|times| - 1])
  }

  /** The variables without the history. */
  function Variables(s: Schedule): Schedule {
    s.(log := [])
  }

  /** Keeping only the first and last time of a burst leaves the same variables as recording every event. */
  lemma {:induction false} BatchLossless(s: Schedule, times: seq<nat>)
    requires times != []
    requires forall i, j :: 0 <= i < j < |times| ==> times[i] <= times[j]
    requires times[|times| - 1] - times[0] < EVENT_RESET
    ensures Recordable(EventBatch(Some(times[0]), Some(times[|times| - 1])))
    ensures Variables(s.RecordBatch(EventBatch(Some(times[0]), Some(times[|times| - 1]))))
         == Variables(RecordAll(s, times))
  {
    var last := |times| - 1;
    if last == 0 {
      assert times[..last] == [];
    } else {
      BatchLossless(s, times[..last]);
      assert times[..last][0] == times[0] && times[..last][last - 1] == times[last - 1];
    }
  }
}
