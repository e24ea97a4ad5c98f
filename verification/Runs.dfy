/** The guarantees of legal histories, restated for every run of the monitor loop. */
module Runs {
  import opened Durations
  import opened Guarantees
  import opened History
  import opened Monitor

  // ---------- a clock that never runs backwards ----------

  /** The readings of one iteration are in order, and event times are no earlier than the attempt or the wait. */
  predicate TurnOrdered(t: Turn) {
    var b := t.acquisition.events;
    && t.now <= t.subscribeFailedAt <= t.ready <= t.settledAt <= t.failedAt
    && (b.first.Some? ==> t.ready <= b.first.value <= t.settledAt)
    && (b.last.Some? ==> t.ready <= b.last.value <= t.settledAt)
    && (b.first.Some? && b.last.Some? ==> b.first.value <= b.last.value)
    && (t.wait.LinkChanged? ==> t.ready <= t.wait.at)
    && t.ready <= t.lostAt
  }

  predicate FinishedBy(t: Turn, time: nat) {
    t.failedAt <= time && t.lostAt <= time && (t.wait.LinkChanged? ==> t.wait.at <= time)
  }

  ghost predicate TurnsOrdered(turns: seq<Turn>) {
    && (forall i :: 0 <= i < |turns| ==> TurnOrdered(turns[i]))
    && (forall i, j :: 0 <= i < j < |turns| ==> FinishedBy(turns[i], turns[j].now))
  }

  /** The history so far is in order and over by `time`. */
  ghost predicate OrderedBy(log: Log, time: nat) {
    ClockOrdered(log) && forall i :: 0 <= i < |log| ==> log[i].at <= time
  }

  lemma AppendOrdered(log: Log, e: Entry, time: nat)
    requires OrderedBy(log, time) && time <= e.at
    ensures OrderedBy(log + [e], e.at)
  {
  }

  lemma TrySubscribeOrdered(s: Schedule, t: Turn)
    requires OrderedBy(s.log, t.now) && TurnOrdered(t)
    ensures OrderedBy(s.TrySubscribe(t).log, t.ready)
  {
    AppendOrdered(s.log, Subscribed(t.now), t.now);
    AppendOrdered(s.log, Failed(t.subscribeFailedAt), t.now);
  }

  lemma BatchOrdered(s: Schedule, b: EventBatch, from: nat, to: nat)
    requires OrderedBy(s.log, from) && from <= to
    requires b.first.Some? ==> from <= b.first.value <= to
    requires b.last.Some? ==> from <= b.last.value <= to
    requires b.first.Some? && b.last.Some? ==> b.first.value <= b.last.value
    ensures OrderedBy(s.RecordBatch(b).log, to) && OrderedBy(s.Ignore(b).log, to)
  {
    var first := if b.first.Some? then [Ignored(b.first.value)] else [];
    assert s.log + [] == s.log;
    assert s.log + first + [] == s.log + first;
    if b.first.Some? {
      AppendOrdered(s.log, Ignored(b.first.value), from);
      AppendOrdered(s.log, Recorded(b.first.value), from);
    }
    if b.last.Some? {
      var since := if b.first.Some? then b.first.value else from;
      AppendOrdered(s.log + first, Ignored(b.last.value), since);
      if b.first.Some? {
        AppendOrdered(s.log + [Recorded(b.first.value)], Recorded(b.last.value), since);
      }
    }
  }

  lemma AttemptOrdered(s: Schedule, t: Turn)
    requires OrderedBy(s.log, t.ready) && TurnOrdered(t)
    ensures OrderedBy(s.Attempt(t).log, t.failedAt)
  {
    var begun, b := s.Start(t.ready), t.acquisition.events;
    AppendOrdered(s.log, Started(t.ready), t.ready);
    BatchOrdered(begun, b, t.ready, t.settledAt);
    var recorded, ignored := begun.RecordBatch(b), begun.Ignore(b);
    AppendOrdered(recorded.log, Failed(t.failedAt), t.settledAt);
    AppendOrdered(ignored.log, Failed(t.failedAt), t.settledAt);
    AppendOrdered(recorded.log, Lost(t.failedAt), t.settledAt);
    if t.acquisition.Completed? {
      AppendOrdered(recorded.log, Accepted(t.acquisition.tag, t.acquisition.links, t.settledAt), t.settledAt);
    }
  }

  lemma TakeOrdered(s: Schedule, t: Turn, time: nat)
    requires OrderedBy(s.log, t.now) && TurnOrdered(t) && FinishedBy(t, time)
    ensures OrderedBy(s.Take(t).log, time)
  {
    TrySubscribeOrdered(s, t);
    var u := s.TrySubscribe(t);
    if s.Attempts(t) {
      AttemptOrdered(u, t);
    } else {
      AppendOrdered(u.log, Lost(t.lostAt), t.ready);
      if t.wait.LinkChanged? {
        AppendOrdered(u.log, Recorded(t.wait.at), t.ready);
      }
    }
  }

  lemma {:induction false} RunOrdered(reconcile: nat, turns: seq<Turn>, time: nat)
    requires TurnsOrdered(turns) && forall i :: 0 <= i < |turns| ==> FinishedBy(turns[i], time)
    ensures OrderedBy(After(reconcile, turns).log, time)
  {
    if turns != [] {
      var front, last := turns[..|turns| - 1], turns[|turns| - 1];
      forall i | 0 <= i < |front| ensures FinishedBy(front[i], last.now) {
        assert front[i] == turns[i];
      }
      assert forall i :: 0 <= i < |front| ==> TurnOrdered(turns[i]) && front[i] == turns[i];
      RunOrdered(reconcile, front, last.now);
      assert TurnOrdered(turns[|turns| - 1]) && FinishedBy(turns[|turns| - 1], time);
      TakeOrdered(After(reconcile, front), last, time);
    }
  }

  // ---------- whole runs ----------

  /** After any run: a change no accepted inventory covers has an attempt scheduled. */
  lemma RunForgetsNothing(reconcile: nat, turns: seq<Turn>, p: nat)
    requires Outstanding(After(reconcile, turns).log, p)
    ensures var s := After(reconcile, turns);
            s.needsInventory || s.eventDeadline.Some?
  {
    RunsAreLegal(reconcile, turns);
    NoLostChange(reconcile, After(reconcile, turns).log, p);
  }

  /**
   * As long as event times never decrease, the next step for that change is enabled 30 s after it and the latest
   * failure: an iteration that begins from then on, and can subscribe if it has to, makes the attempt.
   */
  lemma RunReactsInTime(reconcile: nat, turns: seq<Turn>, p: nat, t: nat)
    requires var log := After(reconcile, turns).log;
             && EventsInOrder(log) && Outstanding(log, p)
             && t >= SaturatingAdd(log[p].at, MAX_DELAY)
             && (LatestFailure(log).Some? ==> t >= SaturatingAdd(LatestFailure(log).value, MAX_DELAY))
    ensures Enabled(After(reconcile, turns), t)
    ensures forall next: Turn :: t <= next.now <= next.ready && next.subscribes ==>
              After(reconcile, turns).Attempts(next)
  {
    RunsAreLegal(reconcile, turns);
    var s := After(reconcile, turns);
    EnabledWithinThirtySeconds(reconcile, s.log, p, t);
    forall next: Turn | t <= next.now <= next.ready && next.subscribes ensures s.Attempts(next) {
      EnabledWithinThirtySeconds(reconcile, s.log, p, next.now);
      EnabledWithinThirtySeconds(reconcile, s.log, p, next.ready);
    }
  }

  /** A moment by which every iteration is over. */
  function Horizon(turns: seq<Turn>): (time: nat)
    ensures forall i :: 0 <= i < |turns| ==> FinishedBy(turns[i], time)
  {
    if turns == [] then 0
    else
      var last := turns[|turns| - 1];
      assert forall i :: 0 <= i < |turns| - 1 ==> turns[..|turns| - 1][i] == turns[i];
      Horizon(turns[..|turns| - 1]) + last.failedAt + last.lostAt + if last.wait.LinkChanged? then last.wait.at else 0
  }

  /** Under an ordered clock no window of w seconds holds more than w + 1 attempts. */
  lemma RunAttemptRate(reconcile: nat, turns: seq<Turn>, from: nat, w: nat)
    requires TurnsOrdered(turns) && reconcile >= SECOND
    requires from + (w + 1) * SECOND <= MAX_DURATION
    ensures StartsWithin(After(reconcile, turns).log, from, from + w * SECOND) <= w + 1
  {
    RunsAreLegal(reconcile, turns);
    RunOrdered(reconcile, turns, Horizon(turns));
    AttemptRate(reconcile, After(reconcile, turns).log, from, w);
  }
}
