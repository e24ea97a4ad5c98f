/** The monitor loop over the production adapter: what src/main.rs starts on its monitor thread. */
module System {
  import opened Actor
  import opened Adapter
  import opened Durations
  import opened Framing
  import opened History
  import opened Monitor
  import opened Netlink
  import opened Runs
  import opened Wrappers

  /** Everything clocks and sockets may answer during one iteration of the loop. */
  datatype Io = Io(
    now: nat,
    opens: bool,
    subscribeFailedAt: nat,
    ready: nat,
    dumpOpens: bool,
    sends: bool,
    startedAt: nat,
    polls: seq<Poll>,
    settledAt: nat,
    failedAt: nat,
    idle: Poll,
    lostAt: nat)

  // ---------- what the monitor hears through the adapter ----------

  /** The monitor's variables and the adapter's sequence number. */
  datatype Joint = Joint(schedule: Schedule, sequence: nat)

  /** What the monitor sees of an iteration's input before it asks for an inventory or a wait. */
  function Asked(io: Io): Turn {
    Turn(io.now, io.opens, io.subscribeFailedAt, io.ready, Ordinary(EventBatch(None, None)), io.settledAt,
         io.failedAt, Deadline, io.lostAt)
  }

  /** The iteration makes an attempt. */
  predicate Acquires(w: Joint, io: Io) {
    w.schedule.Attempts(Asked(io))
  }

  /** Exactly what the monitor hears in one iteration: the adapter's inventory, or the adapter's wait. */
  function Heard(codec: Codec<Message>, w: Joint, io: Io): Turn {
    if Acquires(w, io) then
      Asked(io).(acquisition := InventoryOn(codec, true, w.sequence, w.schedule.continuity, io.dumpOpens, io.sends,
                                            io.startedAt, io.polls))
    else Asked(io).(wait := WaitOn(codec, w.schedule.TrySubscribe(Asked(io)).subscribed, io.idle))
  }

  /** Every clock reading and answer reaches the monitor as itself. */
  lemma HeardRules(codec: Codec<Message>, w: Joint, io: Io)
    ensures var t := Heard(codec, w, io);
            && (t.now, t.subscribes, t.subscribeFailedAt) == (io.now, io.opens, io.subscribeFailedAt)
            && (t.ready, t.settledAt, t.failedAt, t.lostAt) == (io.ready, io.settledAt, io.failedAt, io.lostAt)
            && (Acquires(w, io) && !(io.dumpOpens && io.sends) ==> t.acquisition == Ordinary(EventBatch(None, None)))
            && (Acquires(w, io) && io.dumpOpens && io.sends ==>
                  Warranted(RequestAfter(codec, true, w.sequence, io.startedAt), w.schedule.continuity, io.polls,
                            t.acquisition))
            && (!Acquires(w, io) && !w.schedule.TrySubscribe(Asked(io)).subscribed ==> t.wait == Deadline)
  {
    OutcomeWarranted(RequestAfter(codec, true, w.sequence, io.startedAt), w.schedule.continuity, io.polls);
  }

  /** One iteration. */
  function Stepped(codec: Codec<Message>, w: Joint, io: Io): Joint {
    Joint(w.schedule.Take(Heard(codec, w, io)),
          if Acquires(w, io) && io.dumpOpens then Successor(w.sequence) else w.sequence)
  }

  /** The states a run passes through, one before each iteration and one at the end. */
  ghost predicate Trace(codec: Codec<Message>, reconcile: nat, ios: seq<Io>, trace: seq<Joint>) {
    && |trace| == |ios| + 1
    && trace[0] == Joint(Initial(reconcile), 0)
    && (forall k :: 0 <= k < |ios| ==> Follows(codec, ios, trace, k))
  }

  predicate Follows(codec: Codec<Message>, ios: seq<Io>, trace: seq<Joint>, k: nat)
    requires k < |ios| && |trace| == |ios| + 1
  {
    trace[k + 1] == Stepped(codec, trace[k], ios[k])
  }

  /** What the monitor hears during a run. */
  function TurnsOf(codec: Codec<Message>, ios: seq<Io>, trace: seq<Joint>): (turns: seq<Turn>)
    requires |trace| == |ios| + 1
  {
    seq(|ios|, (k: nat) requires k < |ios| => Heard(codec, trace[k], ios[k]))
  }

  /** A run over the adapter is, iteration by iteration, the run of the monitor over what it hears. */
  lemma {:induction false} TraceIsRun(codec: Codec<Message>, reconcile: nat, ios: seq<Io>, trace: seq<Joint>, k: nat)
    requires Trace(codec, reconcile, ios, trace) && k <= |ios|
    ensures trace[k].schedule == After(reconcile, TurnsOf(codec, ios, trace)[..k])
  {
    if k > 0 {
      TraceIsRun(codec, reconcile, ios, trace, k - 1);
      assert Follows(codec, ios, trace, k - 1);
      OneMoreTurn(reconcile, TurnsOf(codec, ios, trace), k - 1);
    }
  }

  lemma OneMoreTurn(reconcile: nat, turns: seq<Turn>, k: nat)
    requires k < |turns|
    ensures After(reconcile, turns[..k + 1]) == After(reconcile, turns[..k]).Take(turns[k])
  {
    assert turns[..k + 1][..k] == turns[..k];
  }

  // ---------- the adapter keeps the environment contract ----------

  /** Event clock readings in order, within the attempt. */
  ghost predicate PollsOrdered(polls: seq<Poll>, from: nat, to: nat) {
    && (forall i :: 0 <= i < |polls| ==> from <= polls[i].eventAt <= to)
    && (forall i, j :: 0 <= i < j < |polls| ==> polls[i].eventAt <= polls[j].eventAt)
  }

  ghost predicate TimesOrdered(times: seq<nat>, from: nat, to: nat) {
    && (forall i :: 0 <= i < |times| ==> from <= times[i] <= to)
    && (forall i, j :: 0 <= i < j < |times| ==> times[i] <= times[j])
  }

  lemma {:induction false} EventsOrdered(request: Inquiry, polls: seq<Poll>, from: nat, to: nat)
    requires PollsOrdered(polls, from, to)
    ensures TimesOrdered(Events(request, polls), from, to)
    ensures forall t :: t in Events(request, polls) ==> polls != [] && t <= polls[|polls| - 1].eventAt
  {
    if polls != [] {
      var front := polls[..|polls| - 1];
      assert forall i :: 0 <= i < |front| ==> front[i] == polls[i];
      EventsOrdered(request, front, from, to);
      var before := Events(request, front);
      assert forall i :: 0 <= i < |before| ==> before[i] in before;
      if front != [] {
        assert front[|front| - 1].eventAt <= polls[|polls| - 1].eventAt;
      }
    }
  }

  /** Empty, or first <= last, within the attempt. */
  predicate BatchWithin(b: EventBatch, from: nat, to: nat) {
    || (b.first.None? && b.last.None?)
    || (b.first.Some? && b.last.Some? && from <= b.first.value <= b.last.value <= to)
  }

  lemma SpanWithin(times: seq<nat>, from: nat, to: nat)
    requires TimesOrdered(times, from, to)
    ensures BatchWithin(Span(times), from, to)
  {
  }

  /** The batch of a result lies where the notifications it consumed lie. */
  lemma BatchContract(request: Inquiry, tag: nat, polls: seq<Poll>, from: nat, to: nat)
    requires PollsOrdered(polls[..Consumed(request, polls)], from, to)
    ensures BatchWithin(Outcome(request, tag, polls).events, from, to)
  {
    ConsumedEvents(request, tag, polls);
    EventsOrdered(request, polls[..Consumed(request, polls)], from, to);
    SpanWithin(Events(request, polls[..Consumed(request, polls)]), from, to);
  }

  /** A notification is stamped this soon after its turn of the polling loop began. */
  const TURN_LIMIT: nat := EVENT_RESET - INVENTORY_TIMEOUT

  /** The clock runs forward through the polls of an inventory. */
  ghost predicate PollsTimed(polls: seq<Poll>, from: nat, to: nat) {
    && PollsOrdered(polls, from, to)
    && (forall i :: 0 <= i < |polls| ==> from <= polls[i].clock <= polls[i].eventAt < polls[i].clock + TURN_LIMIT)
  }

  lemma InTime(request: Inquiry, before: nat, p: Poll)
    requires VerdictOf(request, before, p) in {Continues, FailsAfterEvent, Completes}
    ensures p.clock < request.deadline
  {
  }

  lemma ConsumedInTime(request: Inquiry, polls: seq<Poll>, k: nat)
    requires k < Consumed(request, polls)
    ensures polls[k].clock < request.deadline
  {
    assert k < Stop(request, polls, 0) ==> VerdictAt(request, polls, k) == Continues;
    InTime(request, DumpBytes(polls[..k]), polls[k]);
  }

  /** The deadline of the polling loop keeps every batch shorter than the quiet period. */
  lemma DeadlineBoundsBatch(request: Inquiry, tag: nat, polls: seq<Poll>, started: nat, to: nat)
    requires request.deadline == started + INVENTORY_TIMEOUT && PollsTimed(polls, started, to)
    ensures Recordable(Outcome(request, tag, polls).events)
    ensures BatchWithin(Outcome(request, tag, polls).events, started, to)
  {
    var consumed := polls[..Consumed(request, polls)];
    forall k | 0 <= k < |consumed| ensures consumed[k].eventAt < started + EVENT_RESET {
      ConsumedInTime(request, polls, k);
    }
    BatchContract(request, tag, polls, started, started + EVENT_RESET - 1);
    BatchContract(request, tag, polls, started, to);
  }

  /** The clock runs forward through the iteration. */
  ghost predicate IoOrdered(io: Io) {
    && io.now <= io.subscribeFailedAt <= io.ready <= io.startedAt <= io.settledAt <= io.failedAt
    && PollsTimed(io.polls, io.startedAt, io.settledAt)
    && io.ready <= io.idle.eventAt && io.ready <= io.lostAt
  }

  /** What the adapter answers is what the monitor relies on: current tags, usable batches, ordered times. */
  predicate Dependable(t: Turn, continuity: nat) {
    && (t.acquisition.Completed? ==> t.acquisition.tag == continuity)
    && Recordable(t.acquisition.events)
    && TurnOrdered(t)
  }

  lemma InventoryDependable(io: Io, request: Inquiry, continuity: nat)
    requires IoOrdered(io) && request.deadline == io.startedAt + INVENTORY_TIMEOUT
    ensures Dependable(Asked(io).(acquisition := Outcome(request, continuity, io.polls)), continuity)
  {
    DeadlineBoundsBatch(request, continuity, io.polls, io.startedAt, io.settledAt);
  }

  /** Whatever the monitor hears through the adapter it can rely on. */
  lemma HeardDependable(codec: Codec<Message>, w: Joint, io: Io)
    requires IoOrdered(io)
    ensures Dependable(Heard(codec, w, io), w.schedule.continuity)
  {
    InventoryDependable(io, RequestAfter(codec, true, w.sequence, io.startedAt), w.schedule.continuity);
  }

  // ---------- with a dependable environment no event is ever set aside ----------

  predicate NothingIgnored(log: Log) {
    forall e :: e in log ==> !e.Ignored?
  }

  lemma DependableKeepsAll(s: Schedule, t: Turn)
    requires NothingIgnored(s.log) && Dependable(t, s.continuity)
    ensures NothingIgnored(s.Take(t).log)
  {
    var u := s.TrySubscribe(t);
    assert NothingIgnored(u.log) && u.continuity == s.continuity;
    var begun := u.Start(t.ready);
    assert NothingIgnored(begun.log);
    assert NothingIgnored(begun.RecordBatch(t.acquisition.events).log);
  }

  predicate IoFinishedBy(io: Io, time: nat) {
    io.failedAt <= time && io.lostAt <= time && io.idle.eventAt <= time
  }

  ghost predicate IosOrdered(ios: seq<Io>) {
    && (forall i :: 0 <= i < |ios| ==> IoOrdered(ios[i]))
    && (forall i, j :: 0 <= i < j < |ios| ==> IoFinishedBy(ios[i], ios[j].now))
  }

  lemma HeardFinishedBy(codec: Codec<Message>, w: Joint, io: Io, time: nat)
    requires IoFinishedBy(io, time)
    ensures FinishedBy(Heard(codec, w, io), time)
  {
  }

  /** With ordered clocks what the monitor hears is ordered too. */
  lemma HeardInOrder(codec: Codec<Message>, ios: seq<Io>, trace: seq<Joint>)
    requires |trace| == |ios| + 1 && IosOrdered(ios)
    ensures TurnsOrdered(TurnsOf(codec, ios, trace))
  {
    var turns := TurnsOf(codec, ios, trace);
    forall k | 0 <= k < |turns| ensures TurnOrdered(turns[k]) {
      HeardDependable(codec, trace[k], ios[k]);
    }
    forall i, j | 0 <= i < j < |turns| ensures FinishedBy(turns[i], turns[j].now) {
      HeardFinishedBy(codec, trace[i], ios[i], ios[j].now);
    }
  }

  /** With ordered clocks no event that reaches the monitor is ever set aside. */
  lemma {:induction false} NothingSetAside(codec: Codec<Message>, reconcile: nat, ios: seq<Io>, trace: seq<Joint>,
                                           k: nat)
    requires Trace(codec, reconcile, ios, trace) && k <= |ios|
    requires forall i :: 0 <= i < |ios| ==> IoOrdered(ios[i])
    ensures NothingIgnored(trace[k].schedule.log)
  {
    if k > 0 {
      NothingSetAside(codec, reconcile, ios, trace, k - 1);
      assert Follows(codec, ios, trace, k - 1);
      HeardDependable(codec, trace[k - 1], ios[k - 1]);
      DependableKeepsAll(trace[k - 1].schedule, Heard(codec, trace[k - 1], ios[k - 1]));
    }
  }

  // ---------- the loop over the adapter ----------

  lemma AttemptSubscribed(s: Schedule, t: Turn)
    ensures s.Attempt(t).subscribed == (s.subscribed && !t.acquisition.LostNotifications?)
  {
    var begun := s.Start(t.ready);
    assert begun.RecordBatch(t.acquisition.events).subscribed == s.subscribed;
    assert begun.Ignore(t.acquisition.events).subscribed == s.subscribed;
  }

  lemma AwaitSubscribed(s: Schedule, t: Turn)
    ensures s.Await(t).subscribed == (s.subscribed && !t.wait.WaitFailed?)
  {
  }

  /** The attempt of one iteration over NetlinkSource. */
  method AttemptSystem(state: State, source: NetlinkSource, publisher: Publication, io: Io) returns (ghost t: Turn)
    requires publisher.Shows(state.log)
    requires state.subscribed && source.notification && source.sequence < SEQUENCES
    modifies state, source, publisher
    ensures t == Asked(io).(acquisition := InventoryOn(source.codec, true, old(source.sequence), old(state.continuity),
                                                       io.dumpOpens, io.sends, io.startedAt, io.polls))
    ensures source.sequence == if io.dumpOpens then Successor(old(source.sequence)) else old(source.sequence)
    ensures state.View() == old(state.View()).Attempt(t)
    ensures publisher.Shows(state.log)
    ensures state.subscribed == source.notification
  {
    Begin(state, publisher, Asked(io));
    var acquisition := source.Inventory(state.continuity, io.dumpOpens, io.sends, io.startedAt, io.polls);
    var heard := Asked(io).(acquisition := acquisition);
    AttemptSubscribed(old(state.View()), heard);
    Conclude(state, publisher, heard);
    t := heard;
  }

  /** The wait of one iteration over NetlinkSource. */
  method AwaitSystem(state: State, source: NetlinkSource, publisher: Publication, io: Io) returns (ghost t: Turn)
    requires publisher.Shows(state.log)
    requires state.subscribed == source.notification
    modifies state, source, publisher
    ensures t == Asked(io).(wait := WaitOn(source.codec, old(state.subscribed), io.idle))
    ensures source.sequence == old(source.sequence)
    ensures state.View() == old(state.View()).Await(t)
    ensures publisher.Shows(state.log)
    ensures state.subscribed == source.notification
  {
    var outcome := source.Wait(io.idle);
    var heard := Asked(io).(wait := outcome);
    AwaitSubscribed(state.View(), heard);
    var _ := Await(state, publisher, heard);
    t := heard;
  }

  /** A step in the order the loop makes it: subscribe if need be, then attempt or wait. */
  lemma SteppedMeans(codec: Codec<Message>, w: Joint, io: Io)
    ensures var u := w.schedule.TrySubscribe(Asked(io));
            var inventory := InventoryOn(codec, true, w.sequence, u.continuity, io.dumpOpens, io.sends,
                                         io.startedAt, io.polls);
            Stepped(codec, w, io) ==
              if u.subscribed && u.AcquisitionReady(io.ready) then
                Joint(u.Attempt(Asked(io).(acquisition := inventory)),
                      if io.dumpOpens then Successor(w.sequence) else w.sequence)
              else Joint(u.Await(Asked(io).(wait := WaitOn(codec, u.subscribed, io.idle))), w.sequence)
  {
    assert w.schedule.TrySubscribe(Heard(codec, w, io)) == w.schedule.TrySubscribe(Asked(io));
  }

  /**
   * One iteration of run over NetlinkSource is one step of the two together. The monitor believes itself
   * subscribed exactly while the adapter holds a notification socket.
   */
  method IterateSystem(state: State, source: NetlinkSource, publisher: Publication, io: Io, ghost w: Joint)
    requires w == Joint(state.View(), source.sequence) && w.sequence < SEQUENCES
    requires publisher.Shows(state.log)
    requires state.subscribed == source.notification
    modifies state, source, publisher
    ensures Joint(state.View(), source.sequence) == Stepped(source.codec, w, io)
    ensures publisher.Shows(state.log)
    ensures state.subscribed == source.notification && source.sequence < SEQUENCES
  {
    var asked := Asked(io);
    if !state.subscribed && state.RetryReady(io.now) {
      var _ := source.Subscribe(io.opens);
    }
    TrySubscribe(state, publisher, asked);
    SteppedMeans(source.codec, w, io);
    ghost var t;
    if state.subscribed && state.AcquisitionReady(io.ready) {
      t := AttemptSystem(state, source, publisher, io);
    } else {
      t := AwaitSystem(state, source, publisher, io);
    }
  }

  /** The process-lifetime run of the monitor over the adapter. */
  method RunSystem(source: NetlinkSource, publisher: Publication, reconcile: nat, ios: seq<Io>)
    returns (state: State, ghost trace: seq<Joint>)
    requires publisher.Shows([]) && !source.notification && source.sequence == 0
    modifies source, publisher
    ensures fresh(state)
    ensures Trace(source.codec, reconcile, ios, trace)
    ensures trace[|ios|] == Joint(state.View(), source.sequence)
    ensures publisher.Shows(state.log)
    ensures state.subscribed == source.notification
  {
    state := new State(reconcile);
    trace := [Joint(state.View(), source.sequence)];
    for i := 0 to |ios|
      invariant fresh(state)
      invariant Trace(source.codec, reconcile, ios[..i], trace)
      invariant trace[i] == Joint(state.View(), source.sequence)
      invariant publisher.Shows(state.log)
      invariant state.subscribed == source.notification && source.sequence < SEQUENCES
    {
      IterateSystem(state, source, publisher, ios[i], trace[i]);
      TraceExtends(source.codec, reconcile, ios, trace, i);
      trace := trace + [Joint(state.View(), source.sequence)];
    }
    assert ios[..|ios|] == ios;
  }

  lemma TraceExtends(codec: Codec<Message>, reconcile: nat, ios: seq<Io>, trace: seq<Joint>, i: nat)
    requires i < |ios| && Trace(codec, reconcile, ios[..i], trace)
    ensures Trace(codec, reconcile, ios[..i + 1], trace + [Stepped(codec, trace[i], ios[i])])
  {
    var inputs, longer := ios[..i + 1], trace + [Stepped(codec, trace[i], ios[i])];
    forall k | 0 <= k <= i ensures Follows(codec, inputs, longer, k) {
      assert k < i ==> Follows(codec, ios[..i], trace, k);
    }
  }
}
