/** src/monitor.rs: State, the publication cell and the loop, updated in place. */
module Actor {
  import opened Durations
  import opened History
  import opened Links
  import opened Mib
  import opened Monitor
  import opened Numbers
  import opened Wrappers

  datatype Rejection = Stale | InvalidTimestamps | InvalidTopology

  /** The shared cell behind TableReader and TablePublisher, and every write it has seen. */
  class Publication {
    var table: Option<Table>
    ghost var steps: seq<Publishing>

    /** The writes so far are the ones the history calls for, and the cell shows what it makes available. */
    ghost predicate Shows(log: Log)
      reads this
    {
      table == Published(log) && steps == StepsOf(log)
    }

    /** publication(): nothing is available before the first inventory. */
    constructor ()
      ensures table == None && steps == []
    {
      table, steps := None, [];
    }

    method Publish(m: Table)
      modifies this
      ensures table == Some(m) && steps == old(steps) + [Publishing.Publish(m)]
    {
      table := Some(m);
      steps := steps + [Publishing.Publish(m)];
    }

    method Unavailable()
      modifies this
      ensures table == None && steps == old(steps) + [Withdraw]
    {
      table := None;
      steps := steps + [Withdraw];
    }
  }

  class State {
    const reconcile: nat
    var continuity: nat
    var subscribed: bool
    var needsInventory: bool
    var retryNotBefore: Option<nat>
    var failureDelay: nat
    var eventDeadline: Option<nat>
    var eventDelay: nat
    var lastEvent: Option<nat>
    var lastSuccess: Option<nat>
    ghost var log: Log

    ghost function View(): Schedule
      reads this
    {
      Schedule(reconcile, continuity, subscribed, needsInventory, retryNotBefore, failureDelay, eventDeadline,
               eventDelay, lastEvent, lastSuccess, log)
    }

    /** Every field is what the history says. */
    ghost predicate Faithful()
      reads this
    {
      Sound(View())
    }

    /** Faithful between attempts. */
    ghost predicate Settled()
      reads this
    {
      Faithful() && !InFlight(log)
    }

    /** Faithful during an attempt. */
    ghost predicate Attempting()
      reads this
    {
      Faithful() && InFlight(log)
    }

    constructor (reconcile: nat)
      ensures View() == Initial(reconcile)
      ensures Settled()
    {
      this.reconcile := reconcile;
      continuity, subscribed, needsInventory := 0, false, true;
      retryNotBefore, failureDelay := None, INITIAL_DELAY;
      eventDeadline, eventDelay, lastEvent, lastSuccess := None, INITIAL_DELAY, None, None;
      log := [];
      InitialSound(reconcile);
    }

    predicate RetryReady(now: nat)
      reads this
      ensures Faithful() ==> (RetryReady(now) <==> FloorPassed(log, now))
    {
      retryNotBefore.None? || now >= retryNotBefore.value
    }

    predicate AcquisitionReady(now: nat)
      reads this
      ensures Faithful() ==> (AcquisitionReady(now) <==> AttemptDue(reconcile, log, now))
    {
      if !RetryReady(now) then false
      else
        || needsInventory
        || (eventDeadline.Some? && now >= eventDeadline.value)
        || (lastSuccess.Some? && now >= SaturatingAdd(lastSuccess.value, reconcile))
    }

    method Subscribed(ghost at: nat)
      modifies this
      ensures View() == old(View()).Subscribe(at) && log == old(log) + [Entry.Subscribed(at)]
      ensures subscribed && needsInventory
      ensures old(Settled() && !subscribed && RetryReady(at)) ==> Settled()
    {
      if Settled() && !subscribed && RetryReady(at) {
        SubscribeKeeps(View(), at);
      }
      subscribed := true;
      needsInventory := true;
      log := log + [Entry.Subscribed(at)];
    }

    method StartAcquisition(ghost at: nat)
      modifies this
      ensures View() == old(View()).Start(at) && log == old(log) + [Started(at)]
      ensures !needsInventory && eventDeadline == None
      ensures eventDelay == if old(eventDeadline).Some? then NextDelay(old(eventDelay)) else old(eventDelay)
      ensures old(Settled() && subscribed && AcquisitionReady(at)) ==> Attempting() && Untainted(log)
    {
      if Settled() && subscribed && AcquisitionReady(at) {
        StartKeeps(View(), at);
      }
      needsInventory := false;
      var taken := eventDeadline;
      eventDeadline := None;
      if taken.Some? {
        eventDelay := NextDelay(eventDelay);
      }
      log := log + [Started(at)];
    }

    method AcceptInventory(tag: nat, links: seq<ObservedLink>, events: EventBatch, now: nat)
      returns (r: Result<Topology, Rejection>)
      modifies this
      ensures View() == old(View()).AcceptInventory(Completed(tag, links, events), now)
      ensures r.Ok? <==> old(View()).Accepts(Completed(tag, links, events))
      ensures r.Ok? ==> r.value == TopologyOf(links)
      ensures r.Ok? ==> retryNotBefore == None && failureDelay == 1 * SECOND && lastSuccess == Some(now)
      ensures r.Err? ==> (retryNotBefore, failureDelay, lastSuccess) == old((retryNotBefore, failureDelay, lastSuccess))
      ensures r == Err(Stale) <==> tag != old(continuity)
      ensures r == Err(InvalidTimestamps) <==> tag == old(continuity) && !Recordable(events)
      ensures r == Err(InvalidTopology) <==> tag == old(continuity) && Recordable(events) && !WellFormed(links)
      ensures old(Attempting() && Untainted(log)) ==> if r.Ok? then Settled() else Attempting()
    {
      if Attempting() && Untainted(log) {
        AcceptInventoryKeeps(View(), Completed(tag, links, events), now);
      }
      if tag != continuity {
        log := View().Ignore(events).log;
        return Err(Stale);
      }
      var recorded := RecordBatch(events);
      if !recorded {
        return Err(InvalidTimestamps);
      }
      var topology := FromObserved(links);
      if topology.Err? {
        return Err(InvalidTopology);
      }
      retryNotBefore := None;
      failureDelay := INITIAL_DELAY;
      lastSuccess := Some(now);
      log := log + [Accepted(tag, links, now)];
      return Ok(topology.value);
    }

    method RecordBatch(batch: EventBatch) returns (ok: bool)
      modifies this
      ensures ok <==> Recordable(batch)
      ensures ok <==>
                || batch == EventBatch(None, None)
                || (batch.first.Some? && batch.last.Some? &&
                    batch.first.value <= batch.last.value < batch.first.value + 60 * SECOND)
      ensures View() == old(View()).RecordBatch(batch)
      ensures old(Attempting()) ==> Attempting()
    {
      if Attempting() {
        RecordBatchKeeps(View(), batch);
      }
      match (batch.first, batch.last) {
        case (None, None) =>
          return true;
        case (Some(first), Some(last)) =>
          if first <= last && last - first < EVENT_RESET {
            RecordEvent(first);
            if first != last {
              RecordEvent(last);
            }
            return true;
          }
        case _ =>
      }
      log := View().Ignore(batch).log;
      return false;
    }

    /** retain_failed_events: a batch that cannot be recorded is only logged. */
    method RetainFailedEvents(events: EventBatch)
      modifies this
      ensures View() == old(View()).RecordBatch(events)
      ensures old(Attempting()) ==> Attempting()
    {
      var _ := RecordBatch(events);
    }

    method RecordEvent(at: nat)
      modifies this
      ensures View() == old(View()).RecordEvent(at) && log == old(log) + [Recorded(at)]
      ensures lastEvent == Some(at)
      ensures eventDelay == if old(lastEvent).None? || at >= old(lastEvent).value + 60 * SECOND then 1 * SECOND
                            else old(eventDelay)
      ensures eventDeadline == if old(eventDeadline).Some? then old(eventDeadline)
                               else Some(SaturatingAdd(at, eventDelay))
      ensures old(Settled()) ==> Settled()
      ensures old(Attempting()) ==> Attempting()
    {
      if Faithful() {
        RecordKeeps(View(), at);
      }
      if lastEvent.None? || SaturatingSub(at, lastEvent.value) >= EVENT_RESET {
        eventDelay := INITIAL_DELAY;
      }
      lastEvent := Some(at);
      if eventDeadline.None? {
        eventDeadline := Some(SaturatingAdd(at, eventDelay));
      }
      log := log + [Recorded(at)];
    }

    method Fail(now: nat)
      modifies this
      ensures View() == old(View()).Fail(now) && log == old(log) + [Failed(now)]
      ensures needsInventory && retryNotBefore == Some(SaturatingAdd(now, old(failureDelay)))
      ensures failureDelay == NextDelay(old(failureDelay))
      ensures old(Faithful()) ==> Settled()
    {
      if Faithful() {
        FailKeeps(View(), now);
      }
      ScheduleRetry(now);
      log := log + [Failed(now)];
    }

    /** The body of fail, shared with lose_continuity. */
    method ScheduleRetry(now: nat)
      modifies `needsInventory, `retryNotBefore, `failureDelay
      ensures needsInventory
      ensures retryNotBefore == Some(SaturatingAdd(now, old(failureDelay)))
      ensures failureDelay == NextDelay(old(failureDelay))
    {
      needsInventory := true;
      retryNotBefore := Some(SaturatingAdd(now, failureDelay));
      failureDelay := NextDelay(failureDelay);
    }

    method LoseContinuity(now: nat, publisher: Publication)
      modifies this, publisher
      ensures View() == old(View()).LoseContinuity(now) && log == old(log) + [Lost(now)]
      ensures !subscribed && continuity == (old(continuity) + 1) % 0x1_0000_0000_0000_0000
      ensures needsInventory && retryNotBefore == Some(SaturatingAdd(now, old(failureDelay)))
      ensures failureDelay == NextDelay(old(failureDelay))
      ensures publisher.table == None && publisher.steps == old(publisher.steps) + [Withdraw]
      ensures old(Faithful()) ==> Settled()
    {
      if Faithful() {
        LoseKeeps(View(), now);
      }
      publisher.Unavailable();
      continuity := (continuity + 1) % GENERATIONS;
      subscribed := false;
      needsInventory := true;
      ScheduleRetry(now);
      log := log + [Lost(now)];
    }

    function NextDeadline(now: nat): (deadline: nat)
      reads this
      ensures Settled() ==> deadline >= now && Enabled(View(), deadline)
      ensures Settled() ==> forall t :: now <= t < deadline ==> !Enabled(View(), t)
    {
      SleepsUntil(View(), now);
      if retryNotBefore.Some? then Max(retryNotBefore.value, now)
      else if !subscribed || needsInventory then now
      else
        var event := if eventDeadline.Some? then eventDeadline.value else MAX_DURATION;
        var due := if lastSuccess.Some? then SaturatingAdd(lastSuccess.value, reconcile) else now;
        Max(Min(event, due), now)
    }
  }

  /** ExactSleep for a state that may or may not be settled. */
  lemma SleepsUntil(s: Schedule, now: nat)
    ensures Sound(s) && !InFlight(s.log) ==> s.NextDeadline(now) >= now && Enabled(s, s.NextDeadline(now))
    ensures Sound(s) && !InFlight(s.log) ==> forall t :: now <= t < s.NextDeadline(now) ==> !Enabled(s, t)
  {
    if Sound(s) && !InFlight(s.log) {
      ExactSleep(s, now);
    }
  }

  // ---------- the loop ----------

  /** The attempt of one iteration begins. */
  method Begin(state: State, publisher: Publication, t: Turn)
    requires publisher.Shows(state.log)
    modifies state
    ensures state.View() == old(state.View()).Start(t.ready)
    ensures publisher.Shows(state.log)
  {
    AvailableAppend(state.log, Started(t.ready));
    state.StartAcquisition(t.ready);
  }

  /** The outcome of the attempt: publish, fail, or withdraw. */
  method Conclude(state: State, publisher: Publication, t: Turn)
    requires publisher.Shows(state.log)
    modifies state, publisher
    ensures state.View() == old(state.View()).Conclude(t)
    ensures publisher.Shows(state.log)
  {
    match t.acquisition {
      case Completed(tag, links, events) =>
        IgnoreKeepsAvailability(state.View(), events);
        RecordKeepsAvailability(state.View(), events);
        AvailableAppend(state.View().RecordBatch(events).log, Accepted(tag, links, t.settledAt));
        var result := state.AcceptInventory(tag, links, events, t.settledAt);
        if result.Ok? {
          var table := FromTopology(result.value);
          publisher.Publish(table);
        } else {
          AvailableAppend(state.log, Failed(t.failedAt));
          state.Fail(t.failedAt);
        }
      case Ordinary(events) =>
        RecordKeepsAvailability(state.View(), events);
        state.RetainFailedEvents(events);
        AvailableAppend(state.log, Failed(t.failedAt));
        state.Fail(t.failedAt);
      case LostNotifications(events) =>
        RecordKeepsAvailability(state.View(), events);
        state.RetainFailedEvents(events);
        AvailableAppend(state.log, Lost(t.failedAt));
        state.LoseContinuity(t.failedAt, publisher);
    }
  }

  /** The subscription step of one iteration. */
  method TrySubscribe(state: State, publisher: Publication, t: Turn)
    requires publisher.Shows(state.log)
    modifies state
    ensures state.View() == old(state.View()).TrySubscribe(t)
    ensures old(!state.subscribed && state.RetryReady(t.now)) ==>
              if t.subscribes then state.subscribed && state.log == old(state.log) + [Entry.Subscribed(t.now)]
              else !state.subscribed && state.log == old(state.log) + [Failed(t.subscribeFailedAt)] &&
                   state.retryNotBefore == Some(SaturatingAdd(t.subscribeFailedAt, old(state.failureDelay))) &&
                   state.failureDelay == NextDelay(old(state.failureDelay))
    ensures publisher.Shows(state.log)
  {
    if !state.subscribed && state.RetryReady(t.now) {
      if t.subscribes {
        AvailableAppend(state.log, Entry.Subscribed(t.now));
        state.Subscribed(t.now);
      } else {
        AvailableAppend(state.log, Failed(t.subscribeFailedAt));
        state.Fail(t.subscribeFailedAt);
      }
    }
  }

  /** The wait of one iteration; `timeout` is what is asked of the source. */
  method Await(state: State, publisher: Publication, t: Turn) returns (timeout: nat)
    requires publisher.Shows(state.log)
    modifies state, publisher
    ensures state.View() == old(state.View()).Await(t)
    ensures publisher.Shows(state.log)
    ensures timeout == SaturatingSub(old(state.View()).NextDeadline(t.ready), t.ready)
  {
    timeout := SaturatingSub(state.NextDeadline(t.ready), t.ready);
    match t.wait {
      case Deadline =>
      case LinkChanged(at) =>
        AvailableAppend(state.log, Recorded(at));
        state.RecordEvent(at);
      case WaitFailed =>
        AvailableAppend(state.log, Lost(t.lostAt));
        state.LoseContinuity(t.lostAt, publisher);
    }
  }

  /**
   * One iteration of the loop in run. The publication always shows exactly what the history makes
   * available; `timeout` is the wait asked of the source, if the iteration waits.
   */
  method Iterate(state: State, publisher: Publication, t: Turn) returns (timeout: Option<nat>)
    requires publisher.Shows(state.log)
    modifies state, publisher
    ensures state.View() == old(state.View()).Take(t)
    ensures publisher.Shows(state.log)
    ensures old(state.Settled()) ==> state.Settled()
    ensures timeout.None? <==> old(state.View()).Attempts(t)
    ensures timeout.Some? ==>
              timeout.value == SaturatingSub(old(state.View()).TrySubscribe(t).NextDeadline(t.ready), t.ready)
  {
    if state.Settled() {
      TakeKeeps(state.View(), t);
    }
    TrySubscribe(state, publisher, t);
    if state.subscribed && state.AcquisitionReady(t.ready) {
      Begin(state, publisher, t);
      Conclude(state, publisher, t);
      return None;
    }
    var asked := Await(state, publisher, t);
    return Some(asked);
  }

  /** The loop itself, over whatever the environment answers. */
  method Run(publisher: Publication, reconcile: nat, turns: seq<Turn>) returns (state: State)
    requires publisher.Shows([])
    modifies publisher
    ensures fresh(state)
    ensures state.View() == After(reconcile, turns) && state.Settled()
    ensures publisher.Shows(state.log)
  {
    state := new State(reconcile);
    for i := 0 to |turns|
      invariant fresh(state)
      invariant state.View() == After(reconcile, turns[..i]) && state.Settled()
      invariant publisher.Shows(state.log)
    {
      assert turns[..i + 1][..i] == turns[..i];
      var _ := Iterate(state, publisher, turns[i]);
    }
    assert turns[..|turns|] == turns;
  }
}
